/** The resource governor as a value: its guarded state, and the micro-steps its locked functions are made of.

    A request is known by its sequence number, counted from zero. `log` keeps what became of every request
    that entered the queue (the flags granted, granted_workers and cancelled of its shared record, and
    afterwards the fate of its lease). `overtaken` and `ahead` are history: how many later arrivals were
    granted while the request waited, and how many live requests were ahead of it when it came. */
module GovernorModel {
  import opened Prelude

  datatype WaitPolicy = FailImmediately | Wait | WaitUntilDeadline

  datatype Status =
    | Granted | ImpossibleRequest | InvalidRequest | WouldBlock | DeadlineExpired | Cancelled | GovernorShuttingDown

  datatype Request = Request(
    requested: nat, minimum: nat, preferred: nat, maximum: nat,
    exact: bool, policy: WaitPolicy, deadline: nat)

  /** The defaults acquire fills in. */
  function Normalize(source: Request): Request
  {
    var preferred := if source.preferred == 0 then source.requested else source.preferred;
    var maximum := if source.maximum == 0 then Max(source.requested, preferred) else source.maximum;
    var requested := if source.requested == 0 then preferred else source.requested;
    source.(requested := requested, preferred := preferred, maximum := maximum)
  }

  predicate InvalidRange(r: Request)
  {
    || r.minimum == 0 || r.requested == 0 || r.preferred == 0 || r.maximum == 0
    || r.minimum > r.requested || r.minimum > r.preferred
    || r.requested > r.maximum || r.preferred > r.maximum
  }

  predicate InvalidExact(r: Request)
  {
    r.exact && (r.minimum != r.requested || r.preferred != r.requested || r.maximum != r.requested)
  }

  /** Why a normalized request is turned away before it reaches the queue, if it is. */
  function Classify(r: Request, budget: nat): Option<Status>
  {
    if InvalidRange(r) || InvalidExact(r) then Some(InvalidRequest)
    else if r.minimum > budget || (r.exact && r.requested > budget) then Some(ImpossibleRequest)
    else if r.policy.WaitUntilDeadline? && r.deadline == 0 then Some(InvalidRequest)
    else None
  }

  function GrantFor(r: Request, available: nat): nat
  {
    if r.exact then if available >= r.requested then r.requested else 0
    else
      var candidate := Min(r.requested, available);
      if candidate >= r.minimum then candidate else 0
  }

  /** The permits a request cannot do without. */
  function Need(r: Request): nat
  {
    if r.exact then r.requested else r.minimum
  }

  /** A request that passes the checks is grantable exactly when its need is free, never gets more than it
      asked for or than is free, and fits the whole budget. */
  lemma AdmittedFits(r: Request, budget: nat, available: nat)
    requires Classify(r, budget).None?
    ensures GrantFor(r, available) > 0 <==> available >= Need(r)
    ensures GrantFor(r, available) <= available && GrantFor(r, available) <= r.requested
    ensures GrantFor(r, available) > 0 ==> GrantFor(r, available) >= r.minimum
    ensures r.exact && GrantFor(r, available) > 0 ==> GrantFor(r, available) == r.requested
    ensures 1 <= Need(r) <= budget
  {
  }

  /** A well-formed request is impossible exactly when the permits it cannot do without exceed the budget; a
      flexible one may ask for more than the budget. */
  lemma ImpossibleMeansNeed(r: Request, budget: nat)
    requires !InvalidRange(r) && !InvalidExact(r)
    ensures Classify(r, budget) == Some(ImpossibleRequest) <==> Need(r) > budget
  {
  }

  // ----- the guarded state

  datatype Entry = Entry(id: nat, req: Request, bypass: nat, reserved: bool, removed: bool, overtaken: nat, ahead: nat)

  datatype Fate =
    | Queued(req: Request)
    | Uncollected(req: Request, workers: nat)  // granted, its caller has not returned yet
    | Held(req: Request, workers: nat)         // a live root lease
    | Released(req: Request, workers: nat)
    | Withdrawn(req: Request, why: Status)     // WouldBlock, DeadlineExpired or GovernorShuttingDown
    | CancelledFate(req: Request)              // counted by total_cancellations

  datatype Counters = Counters(
    peak: nat, leases: nat, grants: nat, releases: nat, waits: nat,
    cancellations: nat, deadlines: nat, bypasses: nat, reservations: nat)

  datatype Gov = Gov(
    budget: nat, limit: nat,
    permits: nat, c: Counters, shutting: bool,
    requested: set<nat>,      // requests whose cancellation token has been requested
    queue: seq<Entry>,
    log: seq<Fate>)

  function Available(g: Gov): nat
  {
    if g.budget > g.permits then g.budget - g.permits else 0
  }

  function Live(q: seq<Entry>): seq<Entry>
  {
    if q == [] then []
    else (if q[0].removed then [] else [q[0]]) + Live(q[1..])
  }

  function Fits(g: Gov, e: Entry): bool
  {
    GrantFor(e.req, Available(g)) > 0
  }

  /** grant_one_locked for the request at position i, except for taking it out of the queue. */
  function Grant(g: Gov, i: nat): Gov
    requires i < |g.queue| && g.queue[i].id < |g.log|
  {
    var w := GrantFor(g.queue[i].req, Available(g));
    var permits := g.permits + w;
    g.(permits := permits,
       log := g.log[g.queue[i].id := Uncollected(g.queue[i].req, w)],
       queue := g.queue[i := g.queue[i].(removed := true)],
       c := g.c.(peak := Max(g.c.peak, permits), leases := g.c.leases + 1, grants := g.c.grants + 1))
  }

  /** The requests that saw a later one go first. */
  function Overtake(q: seq<Entry>, i: nat): (r: seq<Entry>)
    requires i <= |q|
    ensures |r| == |q|
    ensures forall j :: 0 <= j < |q| ==> r[j] == if j < i then q[j].(overtaken := q[j].overtaken + 1) else q[j]
  {
    seq(|q|, (j: nat) requires j < |q| => if j < i then q[j].(overtaken := q[j].overtaken + 1) else q[j])
  }

  // ----- micro-steps

  datatype Micro =
    // inside grant_waiters_locked
    | CancelAt(i: nat) | Erase | GrantFront | Reserve(aged: bool) | BypassFront(i: nat)
    // a cancellation token is requested somewhere else, at any time
    | RequestCancel(id: nat)
    // the rest of acquire, LeaseControl's destructor, request_shutdown
    | Enqueue(req: Request) | Withdraw(i: nat, why: Status) | CountWait | Collect(id: nat) | Release(id: nat) | Shutdown

  predicate Internal(m: Micro)
  {
    m.CancelAt? || m.Erase? || m.GrantFront? || m.Reserve? || m.BypassFront? || m.RequestCancel?
  }

  /** Nobody between the front and position i could have been granted. */
  predicate NoneFitsBefore(g: Gov, i: nat)
  {
    i <= |g.queue| && forall j :: 1 <= j < i ==> g.queue[j].removed || !Fits(g, g.queue[j])
  }

  predicate FrontIs(g: Gov)
  {
    g.queue != [] && !g.queue[0].removed && g.queue[0].id < |g.log|
  }

  function Apply(g: Gov, m: Micro): Option<Gov>
  {
    match m
    case CancelAt(i) =>
      if i < |g.queue| && !g.queue[i].removed && g.queue[i].id < |g.log| && g.queue[i].id in g.requested then
        Some(g.(queue := g.queue[i := g.queue[i].(removed := true)],
                log := g.log[g.queue[i].id := CancelledFate(g.queue[i].req)],
                c := g.c.(cancellations := g.c.cancellations + 1)))
      else None
    case Erase => Some(g.(queue := Live(g.queue)))
    case GrantFront =>
      if FrontIs(g) && Fits(g, g.queue[0]) && !g.shutting then
        var granted := Grant(g, 0);
        Some(granted.(queue := Live(granted.queue)))
      else None
    case Reserve(aged) =>
      if FrontIs(g) && !Fits(g, g.queue[0]) && !g.queue[0].reserved && !g.shutting
         && (aged || g.queue[0].bypass >= g.limit) then
        Some(g.(queue := g.queue[0 := g.queue[0].(reserved := true)],
                c := g.c.(reservations := g.c.reservations + 1)))
      else None
    case BypassFront(i) =>
      if && FrontIs(g) && !Fits(g, g.queue[0]) && !g.queue[0].reserved && !g.shutting
         && g.queue[0].bypass < g.limit
         && 1 <= i < |g.queue| && !g.queue[i].removed && g.queue[i].id < |g.log|
         && Fits(g, g.queue[i]) && NoneFitsBefore(g, i) then
        var granted := Grant(g, i);
        var counted := Overtake(granted.queue, i);
        Some(granted.(queue := Live(counted[0 := counted[0].(bypass := counted[0].bypass + 1)]),
                      c := granted.c.(bypasses := granted.c.bypasses + 1)))
      else None
    case RequestCancel(id) => Some(g.(requested := g.requested + {id}))
    case Enqueue(req) =>
      if Classify(req, g.budget).None? && !g.shutting then
        Some(g.(log := g.log + [Queued(req)],
                queue := g.queue + [Entry(|g.log|, req, 0, false, false, 0, |Live(g.queue)|)]))
      else None
    case Withdraw(i, why) =>
      if i < |g.queue| && !g.queue[i].removed && g.queue[i].id < |g.log|
         && (why.WouldBlock? || why.DeadlineExpired? || why.GovernorShuttingDown?) then
        Some(g.(queue := Live(g.queue[i := g.queue[i].(removed := true)]),
                log := g.log[g.queue[i].id := Withdrawn(g.queue[i].req, why)],
                c := if why.DeadlineExpired? then g.c.(deadlines := g.c.deadlines + 1) else g.c))
      else None
    case CountWait => Some(g.(c := g.c.(waits := g.c.waits + 1)))
    case Collect(id) =>
      if id < |g.log| && g.log[id].Uncollected? then
        Some(g.(log := g.log[id := Held(g.log[id].req, g.log[id].workers)]))
      else None
    case Release(id) =>
      if id < |g.log| && g.log[id].Held? then
        var w := g.log[id].workers;
        Some(g.(log := g.log[id := Released(g.log[id].req, w)],
                permits := if g.permits >= w then g.permits - w else 0,
                c := g.c.(leases := if g.c.leases > 0 then g.c.leases - 1 else g.c.leases,
                          releases := g.c.releases + 1)))
      else None
    case Shutdown => Some(g.(shutting := true))
  }

  /** A run: each micro-step in turn, when all are enabled. */
  function Exec(g: Gov, steps: seq<Micro>): Option<Gov>
  {
    if steps == [] then Some(g)
    else
      match Exec(g, steps[..|steps| - 1])
      case None => None
      case Some(before) => Apply(before, steps[|steps| - 1])
  }

  /** A governor with a positive budget; a bypass limit of zero is raised to one. */
  function Start(budget: nat, limit: nat): Gov
    requires budget > 0
  {
    Gov(budget, if limit == 0 then 1 else limit, 0, Counters(0, 0, 0, 0, 0, 0, 0, 0, 0), false, {}, [], [])
  }

  /** When grant_waiters_locked has nothing left to do. */
  predicate Settled(g: Gov)
  {
    || g.shutting
    || Live(g.queue) == []
    || Available(g) == 0
    || (FrontIs(g) && g.queue[0].reserved && !Fits(g, g.queue[0]))
    || (forall i :: 0 <= i < |g.queue| ==> g.queue[i].removed || !Fits(g, g.queue[i]))
  }

  lemma {:induction false} ExecConcat(g: Gov, a: seq<Micro>, b: seq<Micro>)
    requires Exec(g, a).Some?
    ensures Exec(g, a + b) == Exec(Exec(g, a).value, b)
  {
    if b == [] {
      assert a + b == a;
    } else {
      assert (a + b)[..|a + b| - 1] == a + b[..|b| - 1];
      ExecConcat(g, a, b[..|b| - 1]);
    }
  }
}
