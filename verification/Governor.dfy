/** The governor's locked functions as the source runs them, in place and loop by loop.

    Every method hands out the micro-steps it took, so that all results about runs apply to it.
    Cancellation tokens are requested by other threads at any time: each read of one may find it newly
    requested. Time enters as a free choice wherever the source compares clocks. */
module Governor {
  import opened GovernorModel
  import opened GovernorInvariant
  import opened GovernorTheorems
  import opened Prelude

  datatype Outcome = Rejected(status: Status) | Waiting | Leased(workers: nat)

  predicate AllInternal(trace: seq<Micro>)
  {
    forall m :: m in trace ==> Internal(m)
  }

  lemma ExecSnoc(g: Gov, steps: seq<Micro>, m: Micro)
    requires Exec(g, steps).Some?
    ensures Exec(g, steps + [m]) == Apply(Exec(g, steps).value, m)
  {
    assert (steps + [m])[..|steps|] == steps;
  }

  class GovernorState {
    const budget: nat
    const limit: nat
    var permits: nat
    var counters: Counters
    var shutting: bool
    var requested: set<nat>
    var pending: seq<Entry>
    var log: seq<Fate>

    ghost function Model(): Gov
      reads this
    {
      Gov(budget, limit, permits, counters, shutting, requested, pending, log)
    }

    constructor (cpuBudget: nat, bypassLimit: nat)
      requires cpuBudget > 0
      ensures Model() == Start(cpuBudget, bypassLimit) && Inv(Model())
    {
      budget := cpuBudget;
      limit := if bypassLimit == 0 then 1 else bypassLimit;
      permits, counters, shutting := 0, Counters(0, 0, 0, 0, 0, 0, 0, 0, 0), false;
      requested, pending, log := {}, [], [];
      new;
      StartInv(cpuBudget, bypassLimit);
    }

    /** cancellation_requested(): another thread may have requested the token since the last look. */
    method CancellationRequested(id: nat) returns (yes: bool, ghost trace: seq<Micro>)
      modifies this`requested
      ensures yes == (id in requested)
      ensures Exec(old(Model()), trace) == Some(Model()) && AllInternal(trace)
    {
      trace := [];
      if * {
        ghost var before := Model();
        requested := requested + {id};
        trace := [RequestCancel(id)];
        ExecSnoc(before, [], RequestCancel(id));
        assert [] + [RequestCancel(id)] == trace;
      }
      yes := id in requested;
    }

    /** std::remove_if over the deque. */
    method EraseRemoved()
      modifies this`pending
      ensures pending == Live(old(pending))
    {
      var kept: seq<Entry> := [];
      var i := 0;
      while i < |pending|
        invariant i <= |pending| && pending == old(pending)
        invariant kept + Live(pending[i..]) == Live(pending)
      {
        assert pending[i..][1..] == pending[i + 1..];
        ghost var later := Live(pending[i + 1..]);
        if !pending[i].removed {
          assert kept + ([pending[i]] + later) == (kept + [pending[i]]) + later;
          kept := kept + [pending[i]];
        } else {
          assert Live(pending[i..]) == later;
        }
        i := i + 1;
      }
      assert pending[i..] == [] && kept + [] == kept;
      pending := kept;
    }

    method CancelPending(i: nat)
      requires Inv(Model()) && i < |pending| && !pending[i].removed && pending[i].id in requested
      modifies this`pending, this`log, this`counters
      ensures pending == old(pending)[i := old(pending)[i].(removed := true)]
      ensures Apply(old(Model()), CancelAt(i)) == Some(Model()) && Inv(Model())
    {
      ghost var before := Model();
      assert EntryOk(pending[i], log, budget, limit);
      log := log[pending[i].id := CancelledFate(pending[i].req)];
      pending := pending[i := pending[i].(removed := true)];
      counters := counters.(cancellations := counters.cancellations + 1);
      StepKeepsInv(before, CancelAt(i), Model());
    }

    method RemoveCancelled() returns (ghost trace: seq<Micro>)
      requires Inv(Model())
      modifies this
      ensures Exec(old(Model()), trace) == Some(Model()) && AllInternal(trace) && Inv(Model())
      ensures shutting == old(shutting) && |pending| <= |old(pending)| && permits == old(permits)
      ensures forall j :: 0 <= j < |pending| ==> !pending[j].removed
    {
      trace := [];
      var i := 0;
      while i < |pending|
        invariant i <= |pending| == |old(pending)| && shutting == old(shutting) && permits == old(permits)
        invariant Exec(old(Model()), trace) == Some(Model()) && AllInternal(trace) && Inv(Model())
      {
        if !pending[i].removed {
          ghost var before := Model();
          ghost var t;
          var yes;
          yes, t := CancellationRequested(pending[i].id);
          ExecConcat(old(Model()), trace, t);
          ExecKeepsInv(before, t, Model());
          trace := trace + t;
          if yes {
            CancelPending(i);
            ExecSnoc(old(Model()), trace, CancelAt(i));
            trace := trace + [CancelAt(i)];
          }
        }
        i := i + 1;
      }
      ghost var before := Model();
      EraseRemoved();
      StepKeepsInv(before, Erase, Model());
      ExecSnoc(old(Model()), trace, Erase);
      trace := trace + [Erase];
      forall j | 0 <= j < |pending| ensures !pending[j].removed {
        LiveIn(before.queue, pending[j]);
      }
      LiveShorter(before.queue);
    }

    method GrantOne(i: nat, workers: nat)
      requires Inv(Model()) && i < |pending| && !pending[i].removed
      requires workers == GrantFor(pending[i].req, Available(Model())) > 0
      modifies this`pending, this`log, this`permits, this`counters
      ensures old(pending)[i].id < |old(log)| && Model() == Grant(old(Model()), i)
    {
      assert EntryOk(pending[i], log, budget, limit);
      log := log[pending[i].id := Uncollected(pending[i].req, workers)];
      pending := pending[i := pending[i].(removed := true)];
      permits := permits + workers;
      counters := counters.(peak := Max(counters.peak, permits), leases := counters.leases + 1,
                            grants := counters.grants + 1);
    }

    /** The front request is granted and leaves the deque. */
    method GrantOldest(workers: nat)
      requires Inv(Model()) && FrontIs(Model()) && !shutting
      requires workers == GrantFor(pending[0].req, Available(Model())) > 0
      modifies this
      ensures Apply(old(Model()), GrantFront) == Some(Model()) && Inv(Model())
      ensures shutting == old(shutting) && |pending| < |old(pending)|
    {
      ghost var before := Model();
      GrantOne(0, workers);
      LiveDrops(pending, 0);
      EraseRemoved();
      StepKeepsInv(before, GrantFront, Model());
    }

    method ReserveOldest(aged: bool)
      requires Inv(Model()) && Apply(Model(), Reserve(aged)).Some?
      modifies this`pending, this`counters
      ensures Apply(old(Model()), Reserve(aged)) == Some(Model()) && Inv(Model())
    {
      ghost var before := Model();
      pending := pending[0 := pending[0].(reserved := true)];
      counters := counters.(reservations := counters.reservations + 1);
      StepKeepsInv(before, Reserve(aged), Model());
    }

    /** A later request is granted past the front, which is charged for it. */
    method GrantBypassing(i: nat, workers: nat)
      requires Inv(Model()) && 1 <= i < |pending| && Apply(Model(), BypassFront(i)).Some?
      requires workers == GrantFor(pending[i].req, Available(Model()))
      modifies this
      ensures Apply(old(Model()), BypassFront(i)) == Some(Model()) && Inv(Model())
      ensures shutting == old(shutting) && |pending| < |old(pending)|
    {
      ghost var before := Model();
      GrantOne(i, workers);
      var marked := Overtake(pending, i);
      pending := marked[0 := marked[0].(bypass := marked[0].bypass + 1)];
      counters := counters.(bypasses := counters.bypasses + 1);
      LiveDrops(pending, i);
      EraseRemoved();
      StepKeepsInv(before, BypassFront(i), Model());
    }

    /** grant_waiters_locked: it ends, and only where nothing is left to do. */
    method GrantWaiters() returns (ghost trace: seq<Micro>)
      requires Inv(Model())
      modifies this
      ensures Exec(old(Model()), trace) == Some(Model()) && AllInternal(trace) && Inv(Model())
      ensures Settled(Model()) && shutting == old(shutting)
    {
      trace := RemoveCancelled();
      if shutting || pending == [] {
        return;
      }
      var progress := true;
      while progress && pending != []
        invariant Exec(old(Model()), trace) == Some(Model()) && AllInternal(trace) && Inv(Model())
        invariant shutting == old(shutting) == false
        invariant !progress ==> Settled(Model())
        decreases |pending|, progress
      {
        ghost var t;
        progress, t := Round();
        ExecConcat(old(Model()), trace, t);
        trace := trace + t;
      }
    }

    /** One round of its loop. */
    method Round() returns (progress: bool, ghost trace: seq<Micro>)
      requires Inv(Model()) && !shutting
      modifies this
      ensures Exec(old(Model()), trace) == Some(Model()) && AllInternal(trace) && Inv(Model()) && !shutting
      ensures if progress then |pending| < |old(pending)| else Settled(Model()) && |pending| <= |old(pending)|
    {
      progress := false;
      trace := RemoveCancelled();
      if pending == [] {
        return;
      }
      assert EntryOk(pending[0], log, budget, limit);
      var available := if budget > permits then budget - permits else 0;
      if available == 0 {
        return;
      }
      var workers := GrantFor(pending[0].req, available);
      if workers != 0 {
        GrantOldest(workers);
        ExecSnoc(old(Model()), trace, GrantFront);
        trace := trace + [GrantFront];
        progress := true;
        return;
      }
      ghost var t;
      progress, t := PastOldest(available);
      ExecConcat(old(Model()), trace, t);
      trace := trace + t;
    }

    /** The oldest request does not fit: reserve for it, or look behind it. */
    method PastOldest(available: nat) returns (progress: bool, ghost trace: seq<Micro>)
      requires Inv(Model()) && !shutting && FrontIs(Model()) && available == Available(Model())
          && !Fits(Model(), pending[0])
      modifies this
      ensures Exec(old(Model()), trace) == Some(Model()) && AllInternal(trace) && Inv(Model()) && !shutting
      ensures if progress then |pending| < |old(pending)| else Settled(Model()) && |pending| <= |old(pending)|
    {
      progress, trace := false, [];
      var aged: bool := *;
      if (aged || pending[0].bypass >= limit) && !pending[0].reserved {
        ReserveOldest(aged);
        ExecSnoc(old(Model()), trace, Reserve(aged));
        trace := [] + [Reserve(aged)];
      }
      if pending[0].reserved {
        return;
      }
      ghost var t;
      progress, t := Scan(available);
      ExecConcat(old(Model()), trace, t);
      trace := trace + t;
    }

    /** Look for the earliest later request that fits. */
    method Scan(available: nat) returns (progress: bool, ghost trace: seq<Micro>)
      requires Scanning(Model(), available, 1)
      modifies this
      ensures Exec(old(Model()), trace) == Some(Model()) && AllInternal(trace) && Inv(Model()) && !shutting
      ensures if progress then |pending| < |old(pending)| else Settled(Model()) && |pending| == |old(pending)|
    {
      progress, trace := false, [];
      var i := 1;
      while i < |pending| && !progress
        invariant Exec(old(Model()), trace) == Some(Model()) && AllInternal(trace) && Inv(Model()) && !shutting
        invariant if progress then |pending| < |old(pending)|
                  else i <= |pending| == |old(pending)| && Scanning(Model(), available, i)
        decreases |old(pending)| - i, !progress
      {
        ghost var t;
        progress, t := Examine(i, available);
        ExecConcat(old(Model()), trace, t);
        trace := trace + t;
        i := i + 1;
      }
    }

    /** One candidate: skipped, cancelled, or granted past the front. */
    method Examine(i: nat, available: nat) returns (granted: bool, ghost trace: seq<Micro>)
      requires i < |pending| && Scanning(Model(), available, i)
      modifies this
      ensures Exec(old(Model()), trace) == Some(Model()) && AllInternal(trace) && Inv(Model()) && !shutting
      ensures if granted then |pending| < |old(pending)|
              else |pending| == |old(pending)| && Scanning(Model(), available, i + 1)
    {
      granted, trace := false, [];
      if pending[i].removed {
        return;
      }
      var yes;
      yes, trace := CancellationRequested(pending[i].id);
      ExecKeepsInv(old(Model()), trace, Model());
      ghost var seen := Model();
      ScanSeesRequests(old(Model()), available, i, seen);
      if yes {
        CancelPending(i);
        ExecSnoc(old(Model()), trace, CancelAt(i));
        trace := trace + [CancelAt(i)];
        ScanPastCancelled(seen, available, i, Model());
        return;
      }
      var workers := GrantFor(pending[i].req, available);
      if workers != 0 {
        CanBypass(seen, available, i);
        GrantBypassing(i, workers);
        ExecSnoc(old(Model()), trace, BypassFront(i));
        trace := trace + [BypassFront(i)];
        granted := true;
      } else {
        ScanPastMisfit(seen, available, i);
      }
    }

    // ----- acquire, up to the return or the next cv wait

    /** The entry of a waiting request (acquire keeps a pointer to it). */
    method Locate(id: nat) returns (i: nat)
      requires Waits(pending, id)
      ensures i < |pending| && pending[i].id == id && !pending[i].removed
    {
      i := 0;
      while pending[i].id != id || pending[i].removed
        invariant i < |pending| && Waits(pending[i..], id)
        decreases |pending| - i
      {
        assert pending[i..][1..] == pending[i + 1..];
        i := i + 1;
      }
    }

    /** A request leaves the queue without a lease. */
    method Leave(id: nat, why: Status)
      requires Inv(Model()) && id < |log| && log[id].Queued?
      requires why.WouldBlock? || why.DeadlineExpired? || why.GovernorShuttingDown?
      modifies this
      ensures exists i :: Apply(old(Model()), Withdraw(i, why)) == Some(Model())
      ensures Inv(Model()) && shutting == old(shutting) && requested == old(requested)
      ensures |log| == |old(log)| && log[id] == Withdrawn(old(log)[id].req, why)
    {
      ghost var before := Model();
      var i := Locate(id);
      assert EntryOk(pending[i], log, budget, limit);
      log := log[id := Withdrawn(pending[i].req, why)];
      pending := pending[i := pending[i].(removed := true)];
      EraseRemoved();
      if why.DeadlineExpired? {
        counters := counters.(deadlines := counters.deadlines + 1);
      }
      assert Apply(before, Withdraw(i, why)) == Some(Model());
      StepKeepsInv(before, Withdraw(i, why), Model());
    }

    /** A waiting request gives up because its own token is requested. */
    method CancelSelf(id: nat) returns (ghost trace: seq<Micro>)
      requires Inv(Model()) && id < |log| && log[id].Queued? && id in requested
      modifies this
      ensures Exec(old(Model()), trace) == Some(Model()) && AllInternal(trace) && Inv(Model())
      ensures |log| == |old(log)| && log[id] == CancelledFate(old(log)[id].req) && shutting == old(shutting)
    {
      var i := Locate(id);
      assert EntryOk(pending[i], log, budget, limit);
      CancelPending(i);
      ghost var before := Model();
      EraseRemoved();
      StepKeepsInv(before, Erase, Model());
      ExecSnoc(old(Model()), [], CancelAt(i));
      ExecSnoc(old(Model()), [] + [CancelAt(i)], Erase);
      trace := [] + [CancelAt(i)] + [Erase];
    }

    /** A granted request becomes a live root lease. */
    method CollectLease(id: nat) returns (workers: nat)
      requires Inv(Model()) && id < |log| && log[id].Uncollected?
      modifies this`log
      ensures Apply(old(Model()), Collect(id)) == Some(Model()) && Inv(Model())
      ensures log == old(log)[id := Held(old(log)[id].req, workers)] && GoodGrant(old(log)[id].req, workers)
    {
      ghost var before := Model();
      assert FateOk(log[id]);
      workers := log[id].workers;
      log := log[id := Held(log[id].req, workers)];
      StepKeepsInv(before, Collect(id), Model());
    }

    /** The head of the waiting loop. The deadline test is a free choice of the clock. */
    method Head(id: nat) returns (result: Outcome, ghost trace: seq<Micro>)
      requires Inv(Model()) && id < |log| && (log[id].Queued? || log[id].Uncollected? || log[id].CancelledFate?)
      modifies this
      ensures Exec(old(Model()), trace) == Some(Model()) && Inv(Model()) && shutting == old(shutting)
      ensures |log| == |old(log)| && log[id].req == old(log)[id].req && Answers(Model(), id, result)
      ensures result.Waiting? ==> old(log)[id].Queued?
    {
      trace := [];
      if log[id].Uncollected? {
        var workers := CollectLease(id);
        ExecSnoc(old(Model()), trace, Collect(id));
        return Leased(workers), [] + [Collect(id)];
      }
      if shutting {
        if log[id].Queued? {
          trace := LeaveTraced(id, GovernorShuttingDown);
        }
        return Rejected(GovernorShuttingDown), trace;
      }
      var yes;
      yes, trace := CancellationRequested(id);
      ExecKeepsInv(old(Model()), trace, Model());
      if yes || log[id].CancelledFate? {
        if log[id].Queued? {
          ghost var t := CancelSelf(id);
          ExecConcat(old(Model()), trace, t);
          trace := trace + t;
        }
        return Rejected(Cancelled), trace;
      }
      var late: bool := *;
      if log[id].req.policy.WaitUntilDeadline? && late {
        ghost var t := LeaveTraced(id, DeadlineExpired);
        ExecConcat(old(Model()), trace, t);
        return Rejected(DeadlineExpired), trace + t;
      }
      return Waiting, trace;
    }

    method LeaveTraced(id: nat, why: Status) returns (ghost trace: seq<Micro>)
      requires Inv(Model()) && id < |log| && log[id].Queued?
      requires why.WouldBlock? || why.DeadlineExpired? || why.GovernorShuttingDown?
      modifies this
      ensures Exec(old(Model()), trace) == Some(Model()) && Inv(Model()) && shutting == old(shutting)
      ensures |log| == |old(log)| && log[id] == Withdrawn(old(log)[id].req, why)
    {
      Leave(id, why);
      ghost var i :| Apply(old(Model()), Withdraw(i, why)) == Some(Model());
      ExecSnoc(old(Model()), [], Withdraw(i, why));
      trace := [] + [Withdraw(i, why)];
    }

    /** acquire from its entry to its return or its first wait on the condition variable. */
    method Admit(source: Request, requestedBefore: bool) returns (result: Outcome, ghost trace: seq<Micro>)
      requires Inv(Model())
      modifies this
      ensures Exec(old(Model()), trace) == Some(Model()) && Inv(Model()) && shutting == old(shutting)
      ensures var early := TurnedAway(Normalize(source), budget, requestedBefore, old(shutting));
        if early.Some? then result == Rejected(early.value) && Model() == old(Model())
        else
          var id := |old(log)|;
          && id < |log| && log[id].req == Normalize(source) && Answers(Model(), id, result)
          && (result.Waiting? ==> !log[id].req.policy.FailImmediately?)
    {
      trace := [];
      var req := Normalize(source);
      var refused := Classify(req, budget);
      if refused.Some? {
        return Rejected(refused.value), trace;
      }
      if requestedBefore {
        return Rejected(Cancelled), trace;
      }
      if shutting {
        return Rejected(GovernorShuttingDown), trace;
      }
      var id := |log|;
      EnqueueRequest(req);
      ExecSnoc(old(Model()), trace, Enqueue(req));
      trace := [] + [Enqueue(req)];
      ghost var entered := Model();
      ghost var t := GrantWaiters();
      ExecConcat(old(Model()), trace, t);
      InternalOutcome(entered, t, Model(), id);
      trace := trace + t;
      result, t := Conclude(id);
      ExecConcat(old(Model()), trace, t);
      trace := trace + t;
    }

    /** After the first pass: cancelled, refused at once, or on to the waiting loop. */
    method Conclude(id: nat) returns (result: Outcome, ghost trace: seq<Micro>)
      requires Inv(Model()) && id < |log| && (log[id].Queued? || log[id].Uncollected? || log[id].CancelledFate?)
      modifies this
      ensures Exec(old(Model()), trace) == Some(Model()) && Inv(Model()) && shutting == old(shutting)
      ensures |log| == |old(log)| && log[id].req == old(log)[id].req && Answers(Model(), id, result)
      ensures result.Waiting? ==> !log[id].req.policy.FailImmediately?
    {
      trace := [];
      if log[id].CancelledFate? {
        return Rejected(Cancelled), trace;
      }
      if log[id].Queued? && log[id].req.policy.FailImmediately? {
        trace := LeaveTraced(id, WouldBlock);
        return Rejected(WouldBlock), trace;
      }
      if log[id].Queued? {
        trace := NoteWait();
      }
      ghost var t;
      result, t := Head(id);
      ExecConcat(old(Model()), trace, t);
      trace := trace + t;
    }

    method NoteWait() returns (ghost trace: seq<Micro>)
      requires Inv(Model())
      modifies this`counters
      ensures Exec(old(Model()), trace) == Some(Model()) && Inv(Model())
    {
      ghost var before := Model();
      counters := counters.(waits := counters.waits + 1);
      StepKeepsInv(before, CountWait, Model());
      ExecSnoc(before, [], CountWait);
      trace := [] + [CountWait];
    }

    method EnqueueRequest(req: Request)
      requires Inv(Model()) && !shutting && Classify(req, budget).None?
      modifies this`log, this`pending
      ensures Apply(old(Model()), Enqueue(req)) == Some(Model()) && Inv(Model())
      ensures log == old(log) + [Queued(req)]
    {
      ghost var before := Model();
      var live := CountLive();
      pending := pending + [Entry(|log|, req, 0, false, false, 0, live)];
      log := log + [Queued(req)];
      StepKeepsInv(before, Enqueue(req), Model());
    }

    /** Only the history variable `ahead` needs this number. */
    method CountLive() returns (n: nat)
      ensures n == |Live(pending)|
    {
      n := 0;
      var i := 0;
      while i < |pending|
        invariant i <= |pending| && n + |Live(pending[i..])| == |Live(pending)|
      {
        assert pending[i..][1..] == pending[i + 1..];
        if !pending[i].removed {
          n := n + 1;
        }
        i := i + 1;
      }
    }

    /** acquire from a wake-up to its return or its next wait. */
    method Resume(id: nat) returns (result: Outcome, ghost trace: seq<Micro>)
      requires Inv(Model()) && id < |log| && (log[id].Queued? || log[id].Uncollected? || log[id].CancelledFate?)
      modifies this
      ensures Exec(old(Model()), trace) == Some(Model()) && Inv(Model()) && shutting == old(shutting)
      ensures id < |log| && log[id].req == old(log)[id].req && Answers(Model(), id, result)
    {
      ghost var before := Model();
      trace := GrantWaiters();
      InternalOutcome(before, trace, Model(), id);
      ghost var t;
      result, t := Head(id);
      ExecConcat(old(Model()), trace, t);
      trace := trace + t;
    }

    /** The destructor of a root lease, with its clamps. */
    method ReleaseLease(id: nat)
      requires Inv(Model()) && id < |log| && log[id].Held?
      modifies this
      ensures Apply(old(Model()), Release(id)) == Some(Model()) && Inv(Model())
      ensures permits == old(permits) - old(log)[id].workers && counters.leases == old(counters).leases - 1
    {
      ghost var before := Model();
      var workers := log[id].workers;
      permits := if permits >= workers then permits - workers else 0;
      counters := counters.(leases := if counters.leases > 0 then counters.leases - 1 else counters.leases,
                            releases := counters.releases + 1);
      log := log[id := Released(log[id].req, workers)];
      StepKeepsInv(before, Release(id), Model());
      SumUpdate(PermitTally, before.log, id, before.log[id]);
      SumUpdate(LeaseTally, before.log, id, before.log[id]);
    }

    method RequestShutdown()
      requires Inv(Model())
      modifies this`shutting
      ensures Apply(old(Model()), Shutdown) == Some(Model()) && Inv(Model()) && shutting
    {
      ghost var before := Model();
      shutting := true;
      StepKeepsInv(before, Shutdown, Model());
    }
  }

  /** The constructor of ResourceGovernor: no governor where it throws. */
  method Create(cpuBudget: nat, bypassLimit: nat, reservationAge: int, capacity: nat) returns (governor: GovernorState?)
    ensures governor == null <==> cpuBudget == 0 || cpuBudget > capacity || reservationAge < 0
    ensures governor != null ==> fresh(governor)
    ensures governor != null ==> governor.Model() == Start(cpuBudget, bypassLimit) && Inv(governor.Model())
  {
    if cpuBudget == 0 || cpuBudget > capacity || reservationAge < 0 { return null; }
    governor := new GovernorState(cpuBudget, bypassLimit);
  }

  /** The answers acquire gives without queueing, in the order it tests for them. */
  function TurnedAway(req: Request, budget: nat, requestedBefore: bool, shutting: bool): Option<Status>
  {
    if Classify(req, budget).Some? then Classify(req, budget)
    else if requestedBefore then Some(Cancelled)
    else if shutting then Some(GovernorShuttingDown)
    else None
  }

  /** A pass of grant_waiters_locked leaves a waiting request waiting, granted or cancelled. */
  lemma {:induction false} InternalOutcome(g: Gov, steps: seq<Micro>, g': Gov, id: nat)
    requires Inv(g) && Exec(g, steps) == Some(g') && AllInternal(steps) && id < |g.log|
    requires g.log[id].Queued? || g.log[id].Uncollected? || g.log[id].CancelledFate?
    ensures id < |g'.log| == |g.log| && g'.log[id].req == g.log[id].req
    ensures g'.log[id].Queued? || g'.log[id].Uncollected? || g'.log[id].CancelledFate?
  {
    if steps != [] {
      var init, m := steps[..|steps| - 1], steps[|steps| - 1];
      var before := Exec(g, init).value;
      assert m in steps && forall x :: x in init ==> x in steps;
      InternalOutcome(g, init, before, id);
      ExecKeepsInv(g, init, before);
      OneOutcome(before, m, g', id);
      OnlyInternal(before, m, g', id);
    }
  }

  lemma OnlyInternal(g: Gov, m: Micro, g': Gov, id: nat)
    requires Inv(g) && Apply(g, m) == Some(g') && Internal(m) && id < |g.log|
    requires g.log[id].Queued? || g.log[id].Uncollected? || g.log[id].CancelledFate?
    ensures |g'.log| == |g.log| && (g'.log[id] == g.log[id] || g'.log[id].Uncollected? || g'.log[id].CancelledFate?)
  {
  }

  /** What an answer of acquire means for the request it answers. */
  predicate Answers(g: Gov, id: nat, result: Outcome)
    requires id < |g.log|
  {
    var f := g.log[id];
    match result
    case Leased(workers) => f == Held(f.req, workers) && GoodGrant(f.req, workers)
    case Waiting => f.Queued? && !g.shutting && id !in g.requested
    case Rejected(WouldBlock) => f == Withdrawn(f.req, WouldBlock) && f.req.policy.FailImmediately?
    case Rejected(DeadlineExpired) => f == Withdrawn(f.req, DeadlineExpired) && f.req.policy.WaitUntilDeadline?
    case Rejected(Cancelled) => f.CancelledFate?
    case Rejected(GovernorShuttingDown) => g.shutting
        && (f.CancelledFate? || f == Withdrawn(f.req, GovernorShuttingDown))
    case Rejected(_) => false
  }

  lemma ScanPastCancelled(g: Gov, available: nat, i: nat, g': Gov)
    requires Scanning(g, available, i) && Inv(g') && Apply(g, CancelAt(i)) == Some(g')
    ensures Scanning(g', available, i + 1)
  {
    assert g.queue[0].id < g.queue[i].id;
  }

  lemma ScanSeesRequests(g: Gov, available: nat, i: nat, g': Gov)
    requires Scanning(g, available, i) && Inv(g') && g' == g.(requested := g'.requested)
    ensures Scanning(g', available, i)
  {
    forall j | 1 <= j < i ensures g'.queue[j].removed || !Fits(g', g'.queue[j]) {
      assert g.queue[j].removed || !Fits(g, g.queue[j]);
    }
  }

  lemma ScanPastMisfit(g: Gov, available: nat, i: nat)
    requires Scanning(g, available, i) && i < |g.queue| && !Fits(g, g.queue[i])
    ensures Scanning(g, available, i + 1)
  {
  }

  lemma CanBypass(g: Gov, available: nat, i: nat)
    requires Scanning(g, available, i) && i < |g.queue| && !g.queue[i].removed && Fits(g, g.queue[i])
    ensures Apply(g, BypassFront(i)).Some?
  {
    assert EntryOk(g.queue[i], g.log, g.budget, g.limit);
  }

  /** The scan has reached position i: the front does not fit but may still be bypassed, and so far nobody
      behind it could be granted. */
  ghost predicate Scanning(g: Gov, available: nat, i: nat)
  {
    && Inv(g) && !g.shutting && available == Available(g)
    && FrontIs(g) && !g.queue[0].reserved && g.queue[0].bypass < g.limit && !Fits(g, g.queue[0])
    && 1 <= i && NoneFitsBefore(g, i)
  }

  lemma {:induction false} LiveShorter(q: seq<Entry>)
    ensures |Live(q)| <= |q|
  {
    if q != [] { LiveShorter(q[1..]); }
  }

  lemma {:induction false} LiveDrops(q: seq<Entry>, i: nat)
    requires i < |q| && q[i].removed
    ensures |Live(q)| < |q|
  {
    LiveShorter(q[1..]);
    if i > 0 { LiveDrops(q[1..], i - 1); }
  }
}
