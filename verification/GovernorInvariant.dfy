/** What every micro-step of the governor keeps. */
module GovernorInvariant {
  import opened Arith
  import opened GovernorModel
  import opened Prelude

  // ----- tallies over the log

  datatype Tally = PermitTally | LeaseTally | ReleaseTally | CancelTally | DeadlineTally

  function Share(k: Tally, f: Fate): nat
  {
    match k
    case PermitTally => if f.Uncollected? || f.Held? then f.workers else 0
    case LeaseTally => if f.Uncollected? || f.Held? then 1 else 0
    case ReleaseTally => if f.Released? then 1 else 0
    case CancelTally => if f.CancelledFate? then 1 else 0
    case DeadlineTally => if f.Withdrawn? && f.why.DeadlineExpired? then 1 else 0
  }

  function Sum(k: Tally, log: seq<Fate>): nat
  {
    if log == [] then 0 else Sum(k, log[..|log| - 1]) + Share(k, log[|log| - 1])
  }

  lemma {:induction false} SumUpdate(k: Tally, log: seq<Fate>, i: nat, f: Fate)
    requires i < |log|
    ensures Sum(k, log[i := f]) == Sum(k, log) - Share(k, log[i]) + Share(k, f)
    ensures Share(k, log[i]) <= Sum(k, log)
  {
    var n := |log| - 1;
    if i < n {
      assert log[i := f][..n] == log[..n][i := f];
      SumUpdate(k, log[..n], i, f);
    } else {
      assert log[i := f][..n] == log[..n];
    }
  }

  lemma SumAppend(k: Tally, log: seq<Fate>, f: Fate)
    ensures Sum(k, log + [f]) == Sum(k, log) + Share(k, f)
  {
    assert (log + [f])[..|log|] == log;
  }

  ghost predicate Tallied(g: Gov)
  {
    && g.permits == Sum(PermitTally, g.log)
    && g.permits <= g.c.peak <= g.budget
    && g.c.leases == Sum(LeaseTally, g.log)
    && g.c.releases == Sum(ReleaseTally, g.log)
    && g.c.grants == g.c.releases + g.c.leases
    && g.c.cancellations == Sum(CancelTally, g.log)
    && g.c.deadlines == Sum(DeadlineTally, g.log)
  }

  // ----- the queue

  ghost predicate EntryOk(e: Entry, log: seq<Fate>, budget: nat, limit: nat)
  {
    && e.id < |log|
    && e.bypass <= limit
    && Classify(e.req, budget).None?
    && (!e.removed ==> log[e.id] == Queued(e.req))
  }

  /** In order of arrival, and only the front may hold a reservation. */
  ghost predicate QueueOk(q: seq<Entry>, log: seq<Fate>, budget: nat, limit: nat)
  {
    && (forall i :: 0 <= i < |q| ==> EntryOk(q[i], log, budget, limit))
    && (forall i, j :: 0 <= i < j < |q| ==> q[i].id < q[j].id)
    && (forall i :: 0 < i < |q| ==> !q[i].reserved)
  }

  predicate Waits(q: seq<Entry>, id: nat)
  {
    q != [] && ((q[0].id == id && !q[0].removed) || Waits(q[1..], id))
  }

  /** Every request without a fate is waiting in the queue. */
  ghost predicate NobodyLost(q: seq<Entry>, log: seq<Fate>)
  {
    forall id :: 0 <= id < |log| && log[id].Queued? ==> Waits(q, id)
  }

  /** The bypasses the requests up to here can still suffer pay for all that is left to overtake. */
  function Slack(e: Entry, limit: nat): nat
  {
    if e.removed || e.bypass > limit then 0 else limit - e.bypass
  }

  /** (ahead + 1) * limit, by repeated addition. */
  function Allowance(ahead: nat, limit: nat): nat
  {
    if ahead == 0 then limit else Allowance(ahead - 1, limit) + limit
  }

  predicate Bounded(q: seq<Entry>, limit: nat, before: nat)
  {
    q == [] ||
    var here := before + Slack(q[0], limit);
    (!q[0].removed ==> q[0].overtaken + here <= Allowance(q[0].ahead, limit)) && Bounded(q[1..], limit, here)
  }

  /** A grant lies in the range asked for; an exact request gets exactly what it asked for. */
  predicate GoodGrant(r: Request, workers: nat)
  {
    1 <= r.minimum <= workers <= r.requested && (r.exact ==> workers == r.requested)
  }

  predicate FateOk(f: Fate)
  {
    f.Uncollected? || f.Held? || f.Released? ==> GoodGrant(f.req, f.workers)
  }

  ghost predicate Inv(g: Gov)
  {
    && g.budget > 0 && g.limit > 0
    && (forall id :: 0 <= id < |g.log| ==> FateOk(g.log[id]))
    && Tallied(g)
    && QueueOk(g.queue, g.log, g.budget, g.limit)
    && NobodyLost(g.queue, g.log)
    && Bounded(g.queue, g.limit, 0)
  }

  // ----- erasing removed entries

  lemma {:induction false} LiveIn(q: seq<Entry>, e: Entry)
    ensures e in Live(q) <==> e in q && !e.removed
  {
    if q != [] {
      LiveIn(q[1..], e);
      assert q == [q[0]] + q[1..];
    }
  }

  lemma QueueTail(q: seq<Entry>, log: seq<Fate>, budget: nat, limit: nat, e: Entry)
    requires QueueOk(q, log, budget, limit) && q != []
    ensures QueueOk(q[1..], log, budget, limit)
    ensures e in q[1..] ==> q[0].id < e.id && !e.reserved
  {
    if e in q[1..] {
      var j :| 0 <= j < |q[1..]| && q[1..][j] == e;
      assert q[j + 1] == e;
    }
  }

  lemma QueueCons(e: Entry, rest: seq<Entry>, log: seq<Fate>, budget: nat, limit: nat)
    requires QueueOk(rest, log, budget, limit) && EntryOk(e, log, budget, limit)
    requires forall i :: 0 <= i < |rest| ==> e.id < rest[i].id && !rest[i].reserved
    ensures QueueOk([e] + rest, log, budget, limit)
  {
  }

  lemma {:induction false} LiveQueueOk(q: seq<Entry>, log: seq<Fate>, budget: nat, limit: nat)
    requires QueueOk(q, log, budget, limit)
    ensures QueueOk(Live(q), log, budget, limit)
  {
    if q != [] {
      var rest := Live(q[1..]);
      assert EntryOk(q[0], log, budget, limit);
      QueueTail(q, log, budget, limit, q[0]);
      LiveQueueOk(q[1..], log, budget, limit);
      forall i | 0 <= i < |rest| ensures q[0].id < rest[i].id && !rest[i].reserved {
        LiveIn(q[1..], rest[i]);
        QueueTail(q, log, budget, limit, rest[i]);
      }
      QueueCons(q[0], rest, log, budget, limit);
    }
  }

  lemma {:induction false} LiveWaits(q: seq<Entry>, id: nat)
    ensures Waits(Live(q), id) == Waits(q, id)
  {
    if q != [] {
      LiveWaits(q[1..], id);
      assert if q[0].removed then Live(q) == Live(q[1..]) else Live(q)[1..] == Live(q[1..]);
    }
  }

  lemma {:induction false} LiveBounded(q: seq<Entry>, limit: nat, before: nat)
    requires Bounded(q, limit, before)
    ensures Bounded(Live(q), limit, before)
  {
    if q != [] {
      LiveBounded(q[1..], limit, before + Slack(q[0], limit));
      assert if q[0].removed then Live(q) == Live(q[1..]) else Live(q)[1..] == Live(q[1..]);
    }
  }

  lemma LiveKeeps(g: Gov, q: seq<Entry>)
    requires QueueOk(q, g.log, g.budget, g.limit) && NobodyLost(q, g.log) && Bounded(q, g.limit, 0)
    ensures QueueOk(Live(q), g.log, g.budget, g.limit) && NobodyLost(Live(q), g.log) && Bounded(Live(q), g.limit, 0)
  {
    LiveQueueOk(q, g.log, g.budget, g.limit);
    LiveBounded(q, g.limit, 0);
    forall id | 0 <= id < |g.log| && g.log[id].Queued? ensures Waits(Live(q), id) {
      LiveWaits(q, id);
    }
  }

  // ----- marking one entry removed

  lemma {:induction false} MarkBounded(q: seq<Entry>, i: nat, limit: nat, before: nat)
    requires i < |q| && Bounded(q, limit, before)
    ensures Bounded(q[i := q[i].(removed := true)], limit, before)
  {
    var q' := q[i := q[i].(removed := true)];
    if i == 0 {
      assert q'[1..] == q[1..];
      LessBefore(q[1..], limit, before + Slack(q[0], limit), before);
    } else {
      assert q'[1..] == q[1..][i - 1 := q[1..][i - 1].(removed := true)];
      MarkBounded(q[1..], i - 1, limit, before + Slack(q[0], limit));
    }
  }

  lemma {:induction false} LessBefore(q: seq<Entry>, limit: nat, a: nat, b: nat)
    requires Bounded(q, limit, a) && b <= a
    ensures Bounded(q, limit, b)
  {
    if q != [] {
      LessBefore(q[1..], limit, a + Slack(q[0], limit), b + Slack(q[0], limit));
    }
  }

  lemma {:induction false} MarkWaits(q: seq<Entry>, i: nat, id: nat)
    requires i < |q|
    requires Waits(q, id) && q[i].id != id
    ensures Waits(q[i := q[i].(removed := true)], id)
  {
    var q' := q[i := q[i].(removed := true)];
    if i == 0 {
      assert q'[1..] == q[1..];
    } else {
      assert q'[1..] == q[1..][i - 1 := q[1..][i - 1].(removed := true)];
      if !(q[0].id == id && !q[0].removed) { MarkWaits(q[1..], i - 1, id); }
    }
  }

  lemma MarkQueueOk(g: Gov, q: seq<Entry>, i: nat, f: Fate)
    requires QueueOk(q, g.log, g.budget, g.limit) && i < |q|
    ensures q[i].id < |g.log|
    ensures QueueOk(q[i := q[i].(removed := true)], g.log[q[i].id := f], g.budget, g.limit)
  {
    assert EntryOk(q[i], g.log, g.budget, g.limit);
    var q', log' := q[i := q[i].(removed := true)], g.log[q[i].id := f];
    forall j | 0 <= j < |q'| ensures EntryOk(q'[j], log', g.budget, g.limit) {
      assert EntryOk(q[j], g.log, g.budget, g.limit);
      if j < i { assert q[j].id < q[i].id; }
      if i < j { assert q[i].id < q[j].id; }
    }
  }

  /** A waiting request gets its fate and is marked. */
  lemma MarkKeeps(g: Gov, q: seq<Entry>, i: nat, f: Fate)
    requires QueueOk(q, g.log, g.budget, g.limit) && NobodyLost(q, g.log) && Bounded(q, g.limit, 0)
    requires i < |q| && !f.Queued?
    ensures q[i].id < |g.log|
    ensures var q', log' := q[i := q[i].(removed := true)], g.log[q[i].id := f];
      QueueOk(q', log', g.budget, g.limit) && NobodyLost(q', log') && Bounded(q', g.limit, 0)
  {
    MarkQueueOk(g, q, i, f);
    MarkBounded(q, i, g.limit, 0);
    var q', log' := q[i := q[i].(removed := true)], g.log[q[i].id := f];
    forall id | 0 <= id < |log'| && log'[id].Queued? ensures Waits(q', id) {
      MarkWaits(q, i, id);
    }
  }

  // ----- the front gives way

  lemma {:induction false} OvertakeBounded(q: seq<Entry>, i: nat, limit: nat, before: nat)
    requires i <= |q| && before > 0 && Bounded(q, limit, before)
    ensures Bounded(Overtake(q, i), limit, before - 1)
  {
    var q' := Overtake(q, i);
    if q != [] {
      if i == 0 {
        assert q' == q;
        LessBefore(q, limit, before, before - 1);
      } else {
        assert q'[1..] == Overtake(q[1..], i - 1);
        OvertakeBounded(q[1..], i - 1, limit, before + Slack(q[0], limit));
      }
    }
  }

  lemma {:induction false} OvertakeWaits(q: seq<Entry>, i: nat, id: nat)
    requires i <= |q|
    ensures Waits(Overtake(q, i), id) == Waits(q, id)
  {
    if q != [] && i > 0 {
      assert Overtake(q, i)[1..] == Overtake(q[1..], i - 1);
      OvertakeWaits(q[1..], i - 1, id);
    } else {
      assert Overtake(q, i) == q;
    }
  }

  /** One bypass: everybody before position i is overtaken once, and the front pays one bypass for it. */
  function Charged(q: seq<Entry>, i: nat): (r: seq<Entry>)
    requires 1 <= i <= |q|
    ensures |r| == |q|
  {
    var o := Overtake(q, i);
    o[0 := o[0].(bypass := o[0].bypass + 1)]
  }

  lemma ChargedQueueOk(g: Gov, q: seq<Entry>, i: nat)
    requires QueueOk(q, g.log, g.budget, g.limit) && 1 <= i < |q| && q[0].bypass < g.limit
    ensures QueueOk(Charged(q, i), g.log, g.budget, g.limit)
  {
    var q' := Charged(q, i);
    forall j | 0 <= j < |q'| ensures EntryOk(q'[j], g.log, g.budget, g.limit) {
      assert EntryOk(q[j], g.log, g.budget, g.limit);
    }
  }

  lemma ChargedBounded(q: seq<Entry>, i: nat, limit: nat)
    requires Bounded(q, limit, 0) && 1 <= i < |q| && !q[0].removed && q[0].bypass < limit
    ensures Bounded(Charged(q, i), limit, 0)
  {
    assert Charged(q, i)[1..] == Overtake(q[1..], i - 1);
    OvertakeBounded(q[1..], i - 1, limit, Slack(q[0], limit));
  }

  lemma ChargedWaits(q: seq<Entry>, i: nat, id: nat)
    requires 1 <= i < |q| && Waits(q, id)
    ensures Waits(Charged(q, i), id)
  {
    assert Charged(q, i)[1..] == Overtake(q[1..], i - 1);
    OvertakeWaits(q[1..], i - 1, id);
  }

  lemma ChargeKeeps(g: Gov, q: seq<Entry>, i: nat)
    requires QueueOk(q, g.log, g.budget, g.limit) && NobodyLost(q, g.log) && Bounded(q, g.limit, 0)
    requires 1 <= i < |q| && !q[0].removed && q[0].bypass < g.limit
    ensures QueueOk(Charged(q, i), g.log, g.budget, g.limit)
    ensures NobodyLost(Charged(q, i), g.log) && Bounded(Charged(q, i), g.limit, 0)
  {
    ChargedQueueOk(g, q, i);
    ChargedBounded(q, i, g.limit);
    forall id | 0 <= id < |g.log| && g.log[id].Queued? ensures Waits(Charged(q, i), id) {
      ChargedWaits(q, i, id);
    }
  }

  // ----- a new arrival

  lemma {:induction false} AppendBounded(q: seq<Entry>, e: Entry, limit: nat, before: nat)
    requires Bounded(q, limit, before) && !e.removed && e.overtaken == 0
    requires before + Allowance(|Live(q)|, limit) <= Allowance(e.ahead, limit)
    ensures Bounded(q + [e], limit, before)
  {
    if q == [] {
      assert (q + [e])[1..] == [];
    } else {
      assert (q + [e])[1..] == q[1..] + [e];
      assert |Live(q)| == |Live(q[1..])| + if q[0].removed then 0 else 1;
      AppendBounded(q[1..], e, limit, before + Slack(q[0], limit));
    }
  }

  lemma {:induction false} AppendWaits(q: seq<Entry>, e: Entry, id: nat)
    ensures Waits(q + [e], id) == (Waits(q, id) || (e.id == id && !e.removed))
  {
    if q == [] {
      assert (q + [e])[1..] == [];
    } else {
      assert (q + [e])[1..] == q[1..] + [e];
      AppendWaits(q[1..], e, id);
    }
  }

  // ----- every micro-step

  lemma GrantTallies(g: Gov, i: nat)
    requires Inv(g) && i < |g.queue| && !g.queue[i].removed && Fits(g, g.queue[i])
    ensures g.queue[i].id < |g.log| && Tallied(Grant(g, i)) && FateOk(Grant(g, i).log[g.queue[i].id])
  {
    assert EntryOk(g.queue[i], g.log, g.budget, g.limit);
    AdmittedFits(g.queue[i].req, g.budget, Available(g));
    var w := GrantFor(g.queue[i].req, Available(g));
    var f := Uncollected(g.queue[i].req, w);
    forall k: Tally ensures Sum(k, g.log[g.queue[i].id := f]) == Sum(k, g.log) + Share(k, f) {
      SumUpdate(k, g.log, g.queue[i].id, f);
    }
  }

  lemma FateTallies(g: Gov, id: nat, f: Fate)
    requires id < |g.log|
    ensures forall k :: Sum(k, g.log[id := f]) == Sum(k, g.log) - Share(k, g.log[id]) + Share(k, f)
    ensures forall k :: Share(k, g.log[id]) <= Sum(k, g.log)
  {
    forall k: Tally
      ensures Sum(k, g.log[id := f]) == Sum(k, g.log) - Share(k, g.log[id]) + Share(k, f)
          && Share(k, g.log[id]) <= Sum(k, g.log)
    {
      SumUpdate(k, g.log, id, f);
    }
  }

  lemma EnqueueKeeps(g: Gov, req: Request, g': Gov)
    requires Inv(g) && Apply(g, Enqueue(req)) == Some(g')
    ensures Inv(g')
  {
    var e := g'.queue[|g.queue|];
    forall k: Tally ensures Sum(k, g'.log) == Sum(k, g.log) { SumAppend(k, g.log, Queued(req)); }
    AppendBounded(g.queue, e, g.limit, 0);
    forall id | 0 <= id < |g'.log| && g'.log[id].Queued? ensures Waits(g'.queue, id) {
      AppendWaits(g.queue, e, id);
    }
    forall j | 0 <= j < |g'.queue| ensures EntryOk(g'.queue[j], g'.log, g.budget, g.limit) {
      if j < |g.queue| { assert EntryOk(g.queue[j], g.log, g.budget, g.limit); }
    }
  }

  lemma GrantKeeps(g: Gov, g': Gov)
    requires Inv(g) && Apply(g, GrantFront) == Some(g')
    ensures Inv(g')
  {
    GrantTallies(g, 0);
    var granted := Grant(g, 0);
    MarkKeeps(g, g.queue, 0, granted.log[g.queue[0].id]);
    LiveKeeps(granted, granted.queue);
  }

  lemma BypassKeeps(g: Gov, i: nat, g': Gov)
    requires Inv(g) && Apply(g, BypassFront(i)) == Some(g')
    ensures Inv(g')
  {
    GrantTallies(g, i);
    var granted := Grant(g, i);
    MarkKeeps(g, g.queue, i, granted.log[g.queue[i].id]);
    ChargeKeeps(granted, granted.queue, i);
    LiveKeeps(granted, Charged(granted.queue, i));
    assert g'.queue == Live(Charged(granted.queue, i));
  }

  lemma RemovalTallies(g: Gov, i: nat, f: Fate, c: Counters)
    requires Inv(g) && i < |g.queue| && !g.queue[i].removed && (f.CancelledFate? || f.Withdrawn?)
    requires c == g.c.(cancellations := g.c.cancellations + Share(CancelTally, f),
        deadlines := g.c.deadlines + Share(DeadlineTally, f))
    ensures g.queue[i].id < |g.log| && Tallied(g.(log := g.log[g.queue[i].id := f], c := c))
  {
    assert EntryOk(g.queue[i], g.log, g.budget, g.limit);
    FateTallies(g, g.queue[i].id, f);
  }

  lemma CancelKeeps(g: Gov, i: nat, g': Gov)
    requires Inv(g) && Apply(g, CancelAt(i)) == Some(g')
    ensures Inv(g')
  {
    var f := CancelledFate(g.queue[i].req);
    RemovalTallies(g, i, f, g'.c);
    MarkKeeps(g, g.queue, i, f);
  }

  lemma WithdrawKeeps(g: Gov, i: nat, why: Status, g': Gov)
    requires Inv(g) && Apply(g, Withdraw(i, why)) == Some(g')
    ensures Inv(g')
  {
    var f := Withdrawn(g.queue[i].req, why);
    RemovalTallies(g, i, f, g'.c);
    MarkKeeps(g, g.queue, i, f);
    LiveKeeps(g', g.queue[i := g.queue[i].(removed := true)]);
  }

  lemma FateKeeps(g: Gov, m: Micro, g': Gov)
    requires Inv(g) && (m.Collect? || m.Release?) && Apply(g, m) == Some(g')
    ensures Inv(g')
  {
    FateTallies(g, m.id, g'.log[m.id]);
    forall j | 0 <= j < |g'.queue| ensures EntryOk(g'.queue[j], g'.log, g.budget, g.limit) {
      assert EntryOk(g.queue[j], g.log, g.budget, g.limit);
    }
  }

  lemma ReserveKeeps(g: Gov, aged: bool, g': Gov)
    requires Inv(g) && Apply(g, Reserve(aged)) == Some(g')
    ensures Inv(g')
  {
    assert g'.queue[1..] == g.queue[1..];
    forall id | 0 <= id < |g'.log| && g'.log[id].Queued? ensures Waits(g'.queue, id) {
      assert Waits(g.queue, id);
    }
    forall j | 0 <= j < |g'.queue| ensures EntryOk(g'.queue[j], g'.log, g.budget, g.limit) {
      assert EntryOk(g.queue[j], g.log, g.budget, g.limit);
    }
  }

  lemma StepKeepsInv(g: Gov, m: Micro, g': Gov)
    requires Inv(g) && Apply(g, m) == Some(g')
    ensures Inv(g') && g'.budget == g.budget && g'.limit == g.limit
  {
    match m
    case Erase => LiveKeeps(g, g.queue);
    case GrantFront => GrantKeeps(g, g');
    case Reserve(aged) => ReserveKeeps(g, aged, g');
    case BypassFront(i) => BypassKeeps(g, i, g');
    case Enqueue(req) => EnqueueKeeps(g, req, g');
    case CancelAt(i) => CancelKeeps(g, i, g');
    case Withdraw(i, why) => WithdrawKeeps(g, i, why, g');
    case Collect(_) => FateKeeps(g, m, g');
    case Release(_) => FateKeeps(g, m, g');
    case _ =>
  }

  lemma {:induction false} ExecKeepsInv(g: Gov, steps: seq<Micro>, g': Gov)
    requires Inv(g) && Exec(g, steps) == Some(g')
    ensures Inv(g') && g'.budget == g.budget && g'.limit == g.limit
  {
    if steps != [] {
      var before := Exec(g, steps[..|steps| - 1]).value;
      ExecKeepsInv(g, steps[..|steps| - 1], before);
      StepKeepsInv(before, steps[|steps| - 1], g');
    }
  }

  lemma StartInv(budget: nat, limit: nat)
    requires budget > 0
    ensures Inv(Start(budget, limit))
  {
  }
}
