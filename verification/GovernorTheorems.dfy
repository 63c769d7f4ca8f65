/** What holds of the governor over whole runs. */
module GovernorTheorems {
  import opened Arith
  import opened GovernorModel
  import opened GovernorInvariant
  import opened Prelude

  // ----- conservation

  /** The permits in use are the sum of the grants that are live or not yet collected, and never exceed the
      budget; grants, releases and cancellations are each counted once. */
  lemma PermitsConserved(budget: nat, limit: nat, steps: seq<Micro>, g: Gov)
    requires budget > 0 && Exec(Start(budget, limit), steps) == Some(g)
    ensures g.permits == Sum(PermitTally, g.log) && g.permits <= g.c.peak <= budget
    ensures g.c.leases == Sum(LeaseTally, g.log)
    ensures g.c.grants == g.c.releases + g.c.leases
    ensures g.c.cancellations == Sum(CancelTally, g.log)
  {
    StartInv(budget, limit);
    ExecKeepsInv(Start(budget, limit), steps, g);
  }

  /** The release of a live lease never meets the clamping branches of the destructor. */
  lemma ReleaseNeverClamps(budget: nat, limit: nat, steps: seq<Micro>, g: Gov, id: nat)
    requires budget > 0 && Exec(Start(budget, limit), steps) == Some(g)
    requires id < |g.log| && g.log[id].Held?
    ensures g.permits >= g.log[id].workers && g.c.leases > 0
  {
    PermitsConserved(budget, limit, steps, g);
    SumUpdate(PermitTally, g.log, id, g.log[id]);
    SumUpdate(LeaseTally, g.log, id, g.log[id]);
  }

  predicate Follows(f: Fate, f': Fate)
  {
    || f' == f
    || (f.Queued? && f'.req == f.req && (f'.Uncollected? || f'.Withdrawn? || f'.CancelledFate?))
    || (f.Uncollected? && f' == Held(f.req, f.workers))
    || (f.Held? && f' == Released(f.req, f.workers))
  }

  /** A request has at most one outcome: from the queue it is granted, withdrawn or cancelled, a granted one
      is collected and then released with the same number of workers, and nothing ever goes back. */
  lemma OneOutcome(g: Gov, m: Micro, g': Gov, id: nat)
    requires Inv(g) && Apply(g, m) == Some(g') && id < |g.log|
    ensures |g.log| <= |g'.log| && Follows(g.log[id], g'.log[id])
    ensures g'.log[id].CancelledFate? && !g.log[id].CancelledFate? ==> id in g.requested
  {
    if (m.CancelAt? || m.Withdraw? || m.BypassFront?) && m.i < |g.queue| {
      assert EntryOk(g.queue[m.i], g.log, g.budget, g.limit);
    }
    if m.GrantFront? {
      assert EntryOk(g.queue[0], g.log, g.budget, g.limit);
    }
  }

  /** Every way of losing leaves the accounts alone: the step that cancels a request or withdraws it takes no
      permits, and afterwards the request can never be granted. */
  lemma LosersTakeNothing(g: Gov, m: Micro, g': Gov, id: nat, later: seq<Micro>, end: Gov)
    requires Inv(g) && Apply(g, m) == Some(g') && id < |g.log| && g.log[id].Queued?
    requires id < |g'.log| && (g'.log[id].CancelledFate? || g'.log[id].Withdrawn?)
    requires Exec(g', later) == Some(end)
    ensures g'.permits == g.permits && g'.c.leases == g.c.leases && g'.c.grants == g.c.grants
    ensures id < |end.log| && end.log[id] == g'.log[id]
  {
    hide Inv, Live;
    StepKeepsInv(g, m, g');
    LostForGood(g', id, later, end);
    if m.GrantFront? { FrontGranted(g, g', id); }
    if m.BypassFront? { BypassGranted(g, m.i, g', id); }
  }

  lemma FrontGranted(g: Gov, g': Gov, id: nat)
    requires Apply(g, GrantFront) == Some(g') && id < |g.log| && g.log[id].Queued?
    ensures id < |g'.log| && (g'.log[id].Queued? || g'.log[id].Uncollected?)
  {
  }

  lemma BypassGranted(g: Gov, i: nat, g': Gov, id: nat)
    requires Apply(g, BypassFront(i)) == Some(g') && id < |g.log| && g.log[id].Queued?
    ensures id < |g'.log| && (g'.log[id].Queued? || g'.log[id].Uncollected?)
  {
  }

  lemma {:induction false} LostForGood(g: Gov, id: nat, steps: seq<Micro>, end: Gov)
    requires Inv(g) && Exec(g, steps) == Some(end) && id < |g.log| && (g.log[id].CancelledFate? || g.log[id].Withdrawn?)
    ensures id < |end.log| && end.log[id] == g.log[id]
  {
    hide Inv, Apply;
    if steps != [] {
      var init, m := steps[..|steps| - 1], steps[|steps| - 1];
      var before := Exec(g, init).value;
      ExecKeepsInv(g, init, before);
      LostForGood(g, id, init, before);
      OneOutcome(before, m, end, id);
    }
  }

  // ----- starvation

  /** The waiting entry of request id, if it waits. */
  function EntryOf(q: seq<Entry>, id: nat): Option<Entry>
  {
    if q == [] then None
    else if q[0].id == id && !q[0].removed then Some(q[0])
    else EntryOf(q[1..], id)
  }

  /** Between g and g' a request that arrived after id was granted. */
  ghost predicate LaterGranted(g: Gov, g': Gov, id: nat)
  {
    exists d :: id < d < |g.log| && d < |g'.log| && g.log[d].Queued? && g'.log[d].Uncollected?
  }

  /** How many steps of a run grant a later arrival. */
  ghost function Overtakings(g: Gov, steps: seq<Micro>, id: nat): nat
    requires Exec(g, steps).Some?
  {
    if steps == [] then 0
    else
      var init := steps[..|steps| - 1];
      var before := Exec(g, init).value;
      Overtakings(g, init, id) + if LaterGranted(before, Exec(g, steps).value, id) then 1 else 0
  }

  lemma {:induction false} EntryOfLive(q: seq<Entry>, id: nat)
    ensures EntryOf(Live(q), id) == EntryOf(q, id)
  {
    if q != [] {
      EntryOfLive(q[1..], id);
      assert if q[0].removed then Live(q) == Live(q[1..]) else Live(q)[1..] == Live(q[1..]);
    }
  }

  lemma {:induction false} EntryOfMark(q: seq<Entry>, i: nat, id: nat)
    requires i < |q| && q[i].id != id
    ensures EntryOf(q[i := q[i].(removed := true)], id) == EntryOf(q, id)
  {
    var q' := q[i := q[i].(removed := true)];
    if i == 0 { assert q'[1..] == q[1..]; }
    else {
      assert q'[1..] == q[1..][i - 1 := q[1..][i - 1].(removed := true)];
      EntryOfMark(q[1..], i - 1, id);
    }
  }

  function Bumped(o: Option<Entry>, n: nat): Option<Entry>
  {
    match o case None => None case Some(e) => Some(e.(overtaken := e.overtaken + n))
  }

  lemma {:induction false} EntryOfOvertake(q: seq<Entry>, i: nat, id: nat)
    requires i < |q| && forall a, b :: 0 <= a < b < |q| ==> q[a].id < q[b].id
    ensures EntryOf(Overtake(q, i), id) == Bumped(EntryOf(q, id), if id < q[i].id then 1 else 0)
  {
    var q' := Overtake(q, i);
    if i == 0 {
      assert q' == q;
      if EntryOf(q, id).Some? { EntryOfIsIn(q, id); }
    } else {
      assert q'[1..] == Overtake(q[1..], i - 1);
      EntryOfOvertake(q[1..], i - 1, id);
    }
  }

  lemma {:induction false} EntryOfIsIn(q: seq<Entry>, id: nat)
    requires EntryOf(q, id).Some?
    ensures exists j :: 0 <= j < |q| && q[j] == EntryOf(q, id).value && q[j].id == id && !q[j].removed
  {
    if !(q[0].id == id && !q[0].removed) {
      EntryOfIsIn(q[1..], id);
      var j :| 0 <= j < |q[1..]| && q[1..][j] == EntryOf(q, id).value && q[1..][j].id == id && !q[1..][j].removed;
      assert q[j + 1] == EntryOf(q, id).value;
    } else {
      assert q[0] == EntryOf(q, id).value;
    }
  }

  lemma {:induction false} EntryOfAppend(q: seq<Entry>, e: Entry, id: nat)
    requires e.id != id
    ensures EntryOf(q + [e], id) == EntryOf(q, id)
  {
    if q == [] { assert (q + [e])[1..] == []; }
    else {
      assert (q + [e])[1..] == q[1..] + [e];
      EntryOfAppend(q[1..], e, id);
    }
  }

  /** The history variable counts what it says: while a request waits, it is overtaken exactly by the grants
      of later arrivals, and what was ahead of it on arrival is remembered. */
  lemma OvertakenIsExact(g: Gov, m: Micro, g': Gov, id: nat)
    requires Inv(g) && Apply(g, m) == Some(g') && id < |g.log|
    requires EntryOf(g.queue, id).Some? && EntryOf(g'.queue, id).Some?
    ensures EntryOf(g'.queue, id).value.ahead == EntryOf(g.queue, id).value.ahead
    ensures EntryOf(g'.queue, id).value.overtaken ==
            EntryOf(g.queue, id).value.overtaken + if LaterGranted(g, g', id) then 1 else 0
  {
    match m
    case BypassFront(i) => BypassCounts(g, i, g', id);
    case GrantFront => FrontOvertakesNobody(g, g', id);
    case CancelAt(i) => RemovalCounts(g, i, CancelledFate(g.queue[i].req), g', id);
    case Withdraw(i, why) => RemovalCounts(g, i, Withdrawn(g.queue[i].req, why), g', id);
    case Erase => EntryOfLive(g.queue, id);
    case Enqueue(_) => EntryOfAppend(g.queue, g'.queue[|g.queue|], id);
    case Reserve(_) => assert g'.queue[1..] == g.queue[1..];
    case _ =>
  }

  lemma RemovalCounts(g: Gov, i: nat, f: Fate, g': Gov, id: nat)
    requires Inv(g) && i < |g.queue| && !g.queue[i].removed && g.queue[i].id < |g.log|
    requires !f.Uncollected? && g'.log == g.log[g.queue[i].id := f]
    requires var q := g.queue[i := g.queue[i].(removed := true)]; g'.queue == q || g'.queue == Live(q)
    requires EntryOf(g'.queue, id).Some?
    ensures EntryOf(g'.queue, id) == EntryOf(g.queue, id) && !LaterGranted(g, g', id)
  {
    var q := g.queue[i := g.queue[i].(removed := true)];
    EntryOfLive(q, id);
    if g.queue[i].id == id {
      EntryOfIsIn(q, id);
    }
    EntryOfMark(g.queue, i, id);
  }

  lemma FrontOvertakesNobody(g: Gov, g': Gov, id: nat)
    requires Inv(g) && Apply(g, GrantFront) == Some(g')
    requires EntryOf(g.queue, id).Some? && EntryOf(g'.queue, id).Some?
    ensures EntryOf(g'.queue, id) == EntryOf(g.queue, id) && !LaterGranted(g, g', id)
  {
    var q := Grant(g, 0).queue;
    EntryOfLive(q, id);
    if g.queue[0].id == id { EntryOfIsIn(q, id); }
    EntryOfMark(g.queue, 0, id);
    EntryOfIsIn(g.queue, id);
  }

  lemma BypassCounts(g: Gov, i: nat, g': Gov, id: nat)
    requires Inv(g) && Apply(g, BypassFront(i)) == Some(g')
    requires EntryOf(g.queue, id).Some? && EntryOf(g'.queue, id).Some?
    ensures var e, e' := EntryOf(g.queue, id).value, EntryOf(g'.queue, id).value;
      e'.ahead == e.ahead && e'.overtaken == e.overtaken + if LaterGranted(g, g', id) then 1 else 0
  {
    var q := Grant(g, i).queue;
    var o := Overtake(q, i);
    var c := o[0 := o[0].(bypass := o[0].bypass + 1)];
    EntryOfLive(c, id);
    assert c[1..] == o[1..];
    EntryOfOvertake(q, i, id);
    if g.queue[i].id == id { EntryOfIsIn(q, id); }
    EntryOfMark(g.queue, i, id);
    assert EntryOk(g.queue[i], g.log, g.budget, g.limit);
    if id < g.queue[i].id {
      assert g.log[g.queue[i].id].Queued? && g'.log[g.queue[i].id].Uncollected?;
    }
  }

  lemma {:induction false} BoundedEntry(q: seq<Entry>, limit: nat, before: nat, id: nat)
    requires Bounded(q, limit, before) && EntryOf(q, id).Some?
    ensures EntryOf(q, id).value.overtaken <= Allowance(EntryOf(q, id).value.ahead, limit)
  {
    if !(q[0].id == id && !q[0].removed) {
      BoundedEntry(q[1..], limit, before + Slack(q[0], limit), id);
    }
  }

  /** A request still in the queue at the end of a run was in it all along. */
  lemma WaitedAllAlong(g: Gov, m: Micro, g': Gov, id: nat)
    requires Inv(g) && Apply(g, m) == Some(g') && id < |g.log| && EntryOf(g'.queue, id).Some?
    ensures EntryOf(g.queue, id).Some?
  {
    StepKeepsInv(g, m, g');
    EntryOfIsIn(g'.queue, id);
    var j :| 0 <= j < |g'.queue| && g'.queue[j].id == id && !g'.queue[j].removed;
    assert EntryOk(g'.queue[j], g'.log, g'.budget, g'.limit);
    OneOutcome(g, m, g', id);
    assert g.log[id].Queued?;
    WaitsIsEntry(g.queue, id);
  }

  lemma {:induction false} WaitsIsEntry(q: seq<Entry>, id: nat)
    ensures Waits(q, id) <==> EntryOf(q, id).Some?
  {
    if q != [] { WaitsIsEntry(q[1..], id); }
  }

  lemma {:induction false} OvertakingsCounted(g: Gov, steps: seq<Micro>, g': Gov, id: nat)
    requires Inv(g) && Exec(g, steps) == Some(g') && id < |g.log| && EntryOf(g'.queue, id).Some?
    ensures |g.log| <= |g'.log| && EntryOf(g.queue, id).Some?
    ensures var e, e' := EntryOf(g.queue, id).value, EntryOf(g'.queue, id).value;
      e'.ahead == e.ahead && e'.overtaken == e.overtaken + Overtakings(g, steps, id)
  {
    if steps != [] {
      var init, m := steps[..|steps| - 1], steps[|steps| - 1];
      var before := Exec(g, init).value;
      ExecKeepsInv(g, init, before);
      LogGrows(g, init, before);
      WaitedAllAlong(before, m, g', id);
      OvertakingsCounted(g, init, before, id);
      OvertakenIsExact(before, m, g', id);
      OneOutcome(before, m, g', id);
    }
  }

  lemma StepLogGrows(g: Gov, m: Micro, g': Gov)
    requires Apply(g, m) == Some(g')
    ensures |g.log| <= |g'.log|
  {
  }

  lemma {:induction false} LogGrows(g: Gov, steps: seq<Micro>, g': Gov)
    requires Exec(g, steps) == Some(g')
    ensures |g.log| <= |g'.log|
  {
    if steps != [] {
      var before := Exec(g, steps[..|steps| - 1]).value;
      LogGrows(g, steps[..|steps| - 1], before);
      StepLogGrows(before, steps[|steps| - 1], g');
    }
  }

  /** Starvation bound. A request that enters with k live requests ahead of it is overtaken by at most
      (k + 1) * bounded_bypass_limit later arrivals, however long it waits. */
  lemma BoundedStarvation(budget: nat, limit: nat, past: seq<Micro>, g: Gov, req: Request, entered: Gov,
          steps: seq<Micro>, g': Gov)
    requires budget > 0 && Exec(Start(budget, limit), past) == Some(g)
    requires Apply(g, Enqueue(req)) == Some(entered) && Exec(entered, steps) == Some(g')
    requires EntryOf(g'.queue, |g.log|).Some?
    ensures Overtakings(entered, steps, |g.log|) <= (|Live(g.queue)| + 1) * g.limit
    ensures g.limit == Max(1, limit)
  {
    hide Inv, Apply, EntryOf, Overtakings, Live;
    StartInv(budget, limit);
    ExecKeepsInv(Start(budget, limit), past, g);
    BoundedFromEntry(g, req, entered, steps, g');
    AllowanceIs(|Live(g.queue)|, g.limit);
  }

  lemma BoundedFromEntry(g: Gov, req: Request, entered: Gov, steps: seq<Micro>, g': Gov)
    requires Inv(g) && Apply(g, Enqueue(req)) == Some(entered) && Exec(entered, steps) == Some(g')
    requires EntryOf(g'.queue, |g.log|).Some?
    ensures Overtakings(entered, steps, |g.log|) <= Allowance(|Live(g.queue)|, g.limit)
  {
    EntryEnters(g, req, entered);
    OvertakingsCounted(entered, steps, g', |g.log|);
    WaitingIsBounded(entered, steps, g', |g.log|);
  }

  lemma {:induction false} AllowanceIs(ahead: nat, limit: nat)
    ensures Allowance(ahead, limit) == (ahead + 1) * limit
  {
    if ahead > 0 {
      AllowanceIs(ahead - 1, limit);
      MulStep(ahead, limit);
    }
  }

  lemma EntryEnters(g: Gov, req: Request, entered: Gov)
    requires Inv(g) && Apply(g, Enqueue(req)) == Some(entered)
    ensures Inv(entered) && entered.limit == g.limit && |g.log| < |entered.log|
    ensures EntryOf(entered.queue, |g.log|).Some?
    ensures var e := EntryOf(entered.queue, |g.log|).value; e.ahead == |Live(g.queue)| && e.overtaken == 0
  {
    StepKeepsInv(g, Enqueue(req), entered);
    NewEntry(g.queue, entered.queue[|g.queue|], g.log, g.budget, g.limit);
  }

  lemma WaitingIsBounded(entered: Gov, steps: seq<Micro>, g': Gov, id: nat)
    requires Inv(entered) && Exec(entered, steps) == Some(g') && EntryOf(g'.queue, id).Some?
    ensures EntryOf(g'.queue, id).value.overtaken <= Allowance(EntryOf(g'.queue, id).value.ahead, entered.limit)
  {
    ExecKeepsInv(entered, steps, g');
    BoundedEntry(g'.queue, entered.limit, 0, id);
  }

  lemma {:induction false} NewEntry(q: seq<Entry>, e: Entry, log: seq<Fate>, budget: nat, limit: nat)
    requires QueueOk(q, log, budget, limit) && e.id == |log| && !e.removed
    ensures EntryOf(q + [e], e.id) == Some(e)
  {
    if q == [] { assert (q + [e])[0] == e; }
    else {
      assert (q + [e])[1..] == q[1..] + [e];
      assert EntryOk(q[0], log, budget, limit);
      NewEntry(q[1..], e, log, budget, limit);
    }
  }

  /** No request is bypassed more often than the limit. */
  lemma BypassWithinLimit(budget: nat, limit: nat, steps: seq<Micro>, g: Gov, i: nat)
    requires budget > 0 && Exec(Start(budget, limit), steps) == Some(g) && i < |g.queue|
    ensures g.queue[i].bypass <= Max(1, limit)
    ensures g.queue[i].reserved ==> i == 0
  {
    StartInv(budget, limit);
    ExecKeepsInv(Start(budget, limit), steps, g);
    assert EntryOk(g.queue[i], g.log, g.budget, g.limit);
  }

  // ----- the oldest reservation

  predicate ReservedFront(g: Gov, id: nat)
  {
    g.queue != [] && g.queue[0].id == id && g.queue[0].reserved && !g.queue[0].removed
  }

  lemma LiveFront(q: seq<Entry>)
    requires q != [] && !q[0].removed
    ensures Live(q) != [] && Live(q)[0] == q[0]
  {
  }

  /** While a request holds the reservation and waits, a step grants nobody and takes no permits. */
  lemma ReservationFreezes(g: Gov, m: Micro, g': Gov, id: nat)
    requires Inv(g) && Apply(g, m) == Some(g') && ReservedFront(g, id)
    requires id < |g'.log| && g'.log[id].Queued?
    ensures ReservedFront(g', id) && g'.queue[0] == g.queue[0]
    ensures g'.permits <= g.permits && (Internal(m) ==> g'.permits == g.permits && g'.shutting == g.shutting)
    ensures g'.c.grants == g.c.grants
    ensures forall d :: 0 <= d < |g'.log| && g'.log[d].Uncollected? ==> d < |g.log| && g.log[d].Uncollected?
  {
    assert EntryOk(g.queue[0], g.log, g.budget, g.limit);
    match m
    case Erase => LiveFront(g.queue);
    case Withdraw(i, _) => if i > 0 { LiveFront(g.queue[i := g.queue[i].(removed := true)]); }
    case _ =>
  }

  /** The freeze lasts: over any run at whose end the request still waits. */
  lemma {:induction false} FrozenWhileReserved(g: Gov, steps: seq<Micro>, g': Gov, id: nat)
    requires Inv(g) && Exec(g, steps) == Some(g') && ReservedFront(g, id)
    requires id < |g'.log| && g'.log[id].Queued?
    ensures ReservedFront(g', id) && g'.queue[0] == g.queue[0]
    ensures g'.permits <= g.permits && g'.c.grants == g.c.grants
    ensures (forall m :: m in steps ==> Internal(m)) ==> g'.permits == g.permits && g'.shutting == g.shutting
  {
    if steps != [] {
      var init, m := steps[..|steps| - 1], steps[|steps| - 1];
      var before := Exec(g, init).value;
      ExecKeepsInv(g, init, before);
      assert EntryOk(g.queue[0], g.log, g.budget, g.limit);
      LogGrows(g, init, before);
      OneOutcome(before, m, g', id);
      FrozenWhileReserved(g, init, before, id);
      ReservationFreezes(before, m, g', id);
      assert m in steps;
      assert forall x :: x in init ==> x in steps;
    }
  }

  predicate Served(g: Gov, e: Entry, g': Gov)
  {
    && e.id < |g'.log|
    && (|| g'.log[e.id] == Uncollected(e.req, GrantFor(e.req, Available(g)))
        || (g'.log[e.id].CancelledFate? && e.id in g'.requested))
  }

  lemma {:induction false} ReservedIsServed(g: Gov, steps: seq<Micro>, g': Gov, id: nat)
    requires Inv(g) && Exec(g, steps) == Some(g') && ReservedFront(g, id)
    requires forall m :: m in steps ==> Internal(m)
    ensures id < |g'.log| && (g'.log[id].Queued? || Served(g, g.queue[0], g'))
  {
    assert EntryOk(g.queue[0], g.log, g.budget, g.limit);
    if steps != [] {
      var init, m := steps[..|steps| - 1], steps[|steps| - 1];
      var before := Exec(g, init).value;
      assert m in steps && forall x :: x in init ==> x in steps;
      ExecKeepsInv(g, init, before);
      ReservedIsServed(g, init, before, id);
      OneOutcome(before, m, g', id);
      RequestsGrow(before, m, g');
      if before.log[id].Queued? {
        FrozenWhileReserved(g, init, before, id);
        OnlyFrontServed(before, m, g', id);
      }
    }
  }

  lemma RequestsGrow(g: Gov, m: Micro, g': Gov)
    requires Apply(g, m) == Some(g')
    ensures g.requested <= g'.requested
  {
  }

  lemma OnlyFrontServed(g: Gov, m: Micro, g': Gov, id: nat)
    requires Inv(g) && Apply(g, m) == Some(g') && ReservedFront(g, id) && Internal(m)
    ensures id < |g'.log| && (g'.log[id].Queued? || Served(g, g.queue[0], g'))
  {
    assert EntryOk(g.queue[0], g.log, g.budget, g.limit);
    OneOutcome(g, m, g', id);
    RequestsGrow(g, m, g');
    if m.CancelAt? && m.i < |g.queue| {
      assert EntryOk(g.queue[m.i], g.log, g.budget, g.limit);
    }
  }

  /** The reservation succeeds: a pass of grant_waiters_locked that finds enough permits free for the
      reserved request grants it, unless the governor shuts down or the request's own token is requested.
      Since an admitted request fits the whole budget, releasing everything is always enough. */
  lemma ReservationSucceeds(g: Gov, steps: seq<Micro>, g': Gov, id: nat)
    requires Inv(g) && Exec(g, steps) == Some(g') && ReservedFront(g, id)
    requires (forall m :: m in steps ==> Internal(m)) && Settled(g')
    requires !g.shutting && id !in g'.requested && Available(g) >= Need(g.queue[0].req)
    ensures id < |g'.log| && g'.log[id] == Uncollected(g.queue[0].req, GrantFor(g.queue[0].req, Available(g)))
    ensures GrantFor(g.queue[0].req, Available(g)) > 0 && Need(g.queue[0].req) <= g.budget
  {
    assert EntryOk(g.queue[0], g.log, g.budget, g.limit);
    AdmittedFits(g.queue[0].req, g.budget, Available(g));
    ReservedIsServed(g, steps, g', id);
    if g'.log[id].Queued? {
      FrozenWhileReserved(g, steps, g', id);
      LiveFront(g'.queue);
      ExecKeepsInv(g, steps, g');
    }
  }
}
