/** Runtime admission: from the options of a Runtime and the plan of an operation to a lease of the governor. */
module Admission {
  import opened Arith
  import opened GovernorModel
  import opened GovernorInvariant
  import Governor
  import Leases
  import opened Prelude

  datatype Engine = Auto | ThreadPool | StaticThread | OneTbb
  datatype Strategy = Sequential | StaticChunks | DynamicChunks
  datatype Mode = Adaptive | Deterministic
  datatype Access = Disabled | ReadOnly | ReadWrite

  datatype Plan = Plan(engine: Engine, jobCount: nat, parallel: bool, strategy: Strategy, chunkSize: nat)

  datatype Options = Options(
    mode: Mode, access: Access, hasPath: bool, engine: Engine,
    workerBudget: nat, maximumWorkers: nat, policy: WaitPolicy, timeout: int)

  /** A constructed Runtime: its options with the worker ceiling filled in. */
  datatype Runtime = Runtime(options: Options, ceiling: nat, cpuBudget: nat)

  // ----- construction

  /** normalize_resource_options and validate_options; no result where they throw. */
  function Construct(o: Options, cpuBudget: nat): Option<Runtime>
  {
    if o.workerBudget > 0 && o.maximumWorkers > 0 && o.workerBudget != o.maximumWorkers then None
    else
      var requested := if o.maximumWorkers > 0 then o.maximumWorkers else o.workerBudget;
      var effective := if requested == 0 then cpuBudget else requested;
      if effective == 0 || effective > cpuBudget then None
      else if o.access.ReadOnly? && !o.hasPath then None
      else if o.access.Disabled? && o.hasPath then None
      else if o.mode.Deterministic? && o.access.Disabled? && o.engine.Auto? then None
      else Some(Runtime(o.(maximumWorkers := effective), effective, cpuBudget))
  }

  /** What admission rests on. */
  predicate Constructed(rt: Runtime)
  {
    1 <= rt.ceiling <= rt.cpuBudget && rt.options.maximumWorkers == rt.ceiling
  }

  /** A Runtime exists exactly when the options agree with each other and with the governor; its ceiling is
      the one asked for, or the whole budget, and never beyond it. */
  lemma ConstructedRuntimes(o: Options, cpuBudget: nat)
    ensures var asked := if o.maximumWorkers > 0 then o.maximumWorkers else o.workerBudget;
      && (Construct(o, cpuBudget).Some? <==>
           && (o.workerBudget == 0 || o.maximumWorkers == 0 || o.workerBudget == o.maximumWorkers)
           && cpuBudget > 0 && asked <= cpuBudget
           && (o.access.ReadOnly? ==> o.hasPath) && (o.access.Disabled? ==> !o.hasPath)
           && (o.mode.Deterministic? && o.access.Disabled? ==> !o.engine.Auto?))
      && (Construct(o, cpuBudget).Some? ==>
           var rt := Construct(o, cpuBudget).value;
           && Constructed(rt) && rt.cpuBudget == cpuBudget
           && (asked > 0 ==> rt.ceiling == asked) && (asked == 0 ==> rt.ceiling == cpuBudget))
  {
  }

  // ----- how many workers an operation can use

  function Product(extents: seq<nat>): nat
  {
    if extents == [] then 1 else Product(extents[..|extents| - 1]) * extents[|extents| - 1]
  }

  lemma {:induction false} ProductPositive(extents: seq<nat>)
    requires forall i :: 0 <= i < |extents| ==> extents[i] > 0
    ensures Product(extents) > 0
  {
    if extents != [] {
      ProductPositive(extents[..|extents| - 1]);
      MulMono(1, Product(extents[..|extents| - 1]), extents[|extents| - 1]);
    }
  }

  lemma {:induction false} ProductGrows(extents: seq<nat>, k: nat)
    requires k <= |extents| && forall i :: 0 <= i < |extents| ==> extents[i] > 0
    ensures Product(extents[..k]) <= Product(extents)
    decreases |extents| - k
  {
    if k == |extents| {
      assert extents[..k] == extents;
    } else {
      var next := extents[..k + 1];
      assert next[..k] == extents[..k];
      MulMono(1, extents[k], Product(extents[..k]));
      ProductGrows(extents, k + 1);
    }
  }

  /** The number of leading extents that are not zero. */
  function UntilZero(extents: seq<nat>): (n: nat)
    ensures n <= |extents| && (forall i :: 0 <= i < n ==> extents[i] > 0) && (n < |extents| ==> extents[n] == 0)
  {
    if extents == [] || extents[0] == 0 then 0 else 1 + UntilZero(extents[1..])
  }

  /** The saturated product of the extents before the first zero; zero when there is one and no overflow
      before it. So it is the saturated product of all extents just when no zero hides behind an overflow. */
  method WorkloadItems(extents: seq<nat>) returns (items: nat)
    requires forall i :: 0 <= i < |extents| ==> extents[i] <= SIZE_MAX
    ensures items <= SIZE_MAX
    ensures var n := UntilZero(extents);
      items == if Product(extents[..n]) > SIZE_MAX then SIZE_MAX
               else if n < |extents| then 0 else Product(extents)
  {
    if extents == [] { return 1; }
    var total := 1;
    for k := 0 to |extents|
      invariant forall i :: 0 <= i < k ==> extents[i] > 0
      invariant total == Product(extents[..k]) && 1 <= total <= SIZE_MAX
    {
      var extent := extents[k];
      assert extents[..k + 1][..k] == extents[..k];
      if extent == 0 {
        assert UntilZero(extents) == k by { FirstZero(extents, k); }
        return 0;
      }
      OverflowTest(total, extent, SIZE_MAX);
      MulMono(1, total, extent);
      if total > SIZE_MAX / extent {
        Overflowed(extents, k);
        return SIZE_MAX;
      }
      total := total * extent;
    }
    assert extents[..|extents|] == extents;
    items := total;
  }

  lemma FirstZero(extents: seq<nat>, k: nat)
    requires k < |extents| && extents[k] == 0 && forall i :: 0 <= i < k ==> extents[i] > 0
    ensures UntilZero(extents) == k
  {
  }

  lemma Overflowed(extents: seq<nat>, k: nat)
    requires k < |extents| && forall i :: 0 <= i <= k ==> extents[i] > 0
    requires Product(extents[..k + 1]) > SIZE_MAX
    ensures Product(extents[..UntilZero(extents)]) > SIZE_MAX
  {
    var n := UntilZero(extents);
    assert extents[..n][..k + 1] == extents[..k + 1];
    ProductGrows(extents[..n], k + 1);
  }

  /** How many elements are worth a worker. */
  datatype Kind = Threshold | Stencil | Reduction | Other

  function ItemsPerWorker(kind: Kind): (n: nat)
    ensures n > 0
  {
    match kind
    case Threshold => 16384
    case Stencil => 8192
    case Reduction => 32768
    case Other => 4096
  }

  function PlanWorkers(plan: Plan): (n: nat)
    ensures n >= 1
  {
    if plan.parallel then Max(1, plan.jobCount) else 1
  }

  function UsefulConcurrency(ceiling: nat, plan: Option<Plan>, items: nat, kind: Kind): nat
    requires items <= SIZE_MAX
  {
    var top := Max(1, ceiling);
    match plan
    case Some(p) => Min(top, PlanWorkers(p))
    case None =>
      if items == 0 then 1
      else
        var per := ItemsPerWorker(kind);
        var estimated := if items > SIZE_MAX - (per - 1) then top else Max(1, (items + per - 1) / per);
        Min(top, estimated)
  }

  /** Between one and the ceiling: the fewest workers that leave none with more than its share, unless there
      are not enough; a plan's own number where there is one. No sum on the way exceeds std::size_t. */
  lemma UsefulIsEnough(ceiling: nat, plan: Option<Plan>, items: nat, kind: Kind)
    requires items <= SIZE_MAX && ceiling >= 1
    ensures var n := UsefulConcurrency(ceiling, plan, items, kind);
      var per := ItemsPerWorker(kind);
      && 1 <= n <= ceiling
      && (plan.Some? ==> n == Min(ceiling, PlanWorkers(plan.value)))
      && (plan.None? ==> n == ceiling || items <= n * per)
      && (plan.None? && items <= SIZE_MAX - (per - 1) ==>
            n == 1 || ((n - 1) * per < items && items + per - 1 <= SIZE_MAX))
  {
    var per := ItemsPerWorker(kind);
    if plan.None? && 0 < items <= SIZE_MAX - (per - 1) {
      var q := (items + per - 1) / per;
      DivBounds(items + per - 1, per);
      var n := UsefulConcurrency(ceiling, plan, items, kind);
      if n > 1 { MulMono(n - 1, q - 1, per); MulStep(q - 1, per); }
    }
  }

  // ----- which plan an operation runs with

  /** The parts of a stored profile that admission looks at; `otherIssue` stands for every other mismatch the
      compatibility report may find. */
  datatype Profile = Profile(
    exactWorkerBudget: nat, plan: Plan, contractPresent: bool, exactGrantRequired: bool,
    requested: nat, minimum: nat, preferred: nat, maximum: nat, granted: nat,
    backendAvailable: bool, otherIssue: bool)

  predicate Compatible(rt: Runtime, e: Profile, deterministic: bool)
  {
    && e.exactWorkerBudget != 0 && e.exactWorkerBudget <= rt.ceiling
    && (e.plan.parallel ==> e.backendAvailable)
    && (e.plan.parallel ==> e.plan.jobCount == e.exactWorkerBudget)
    && (deterministic && e.contractPresent ==>
          && e.exactGrantRequired
          && e.requested == e.exactWorkerBudget && e.minimum == e.exactWorkerBudget
          && e.preferred == e.exactWorkerBudget && e.maximum == e.exactWorkerBudget
          && e.granted == e.exactWorkerBudget)
    && !e.otherIssue
  }

  /** forced_runtime_plan. */
  function ForcedPlan(rt: Runtime, available: bool): Option<Plan>
  {
    if rt.options.engine.Auto? || !available then None
    else
      var workers := Max(1, rt.ceiling);
      var parallel := workers > 1;
      var strategy := if !parallel then Sequential
                      else if rt.options.engine.StaticThread? then StaticChunks else DynamicChunks;
      Some(Plan(rt.options.engine, workers, parallel, strategy, 0))
  }

  datatype Prepared = Throws | WithPlan(plan: Option<Plan>)

  /** prepare_semantic_operation up to admit_resources. */
  function Prepare(rt: Runtime, found: Option<Profile>, available: bool, loaded: bool, firstUse: bool): Prepared
  {
    if rt.options.mode.Deterministic? then
      if rt.options.access.Disabled? then
        (match ForcedPlan(rt, available) case None => Throws case Some(p) => WithPlan(Some(p)))
      else if found.None? || !Compatible(rt, found.value, true) then Throws
      else WithPlan(Some(found.value.plan))
    else if found.Some? && loaded && Compatible(rt, found.value, false) && firstUse then
      WithPlan(Some(found.value.plan))
    else WithPlan(None)
  }

  /** A plan never asks for more than the ceiling of its Runtime, and a deterministic operation has one: the
      forced scheduler on the whole ceiling, or the stored plan, which if parallel runs on exactly the budget
      it was approved for and if sequential on one worker. */
  lemma PlanFitsCeiling(rt: Runtime, found: Option<Profile>, available: bool, loaded: bool, firstUse: bool)
    requires Constructed(rt) && Prepare(rt, found, available, loaded, firstUse).WithPlan?
    ensures var plan := Prepare(rt, found, available, loaded, firstUse).plan;
      && (plan.Some? ==> PlanWorkers(plan.value) <= rt.ceiling)
      && (rt.options.mode.Deterministic? ==> plan.Some?)
      && (rt.options.mode.Deterministic? && rt.options.access.Disabled? ==>
            PlanWorkers(plan.value) == rt.ceiling && plan.value.engine == rt.options.engine && !rt.options.engine.Auto?)
      && (rt.options.mode.Deterministic? && !rt.options.access.Disabled? ==>
            found.Some? && plan == Some(found.value.plan)
            && PlanWorkers(plan.value) == (if plan.value.parallel then found.value.exactWorkerBudget else 1))
  {
  }

  // ----- the request

  function Workers(rt: Runtime, plan: Option<Plan>, items: nat, kind: Kind): nat
    requires items <= SIZE_MAX
  {
    if rt.options.mode.Deterministic? then (if plan.Some? then PlanWorkers(plan.value) else 1)
    else UsefulConcurrency(rt.ceiling, plan, items, kind)
  }

  function BuildRequest(rt: Runtime, requested: nat, now: nat): Request
  {
    var exact := rt.options.mode.Deterministic?;
    var deadline := if rt.options.policy.WaitUntilDeadline?
        && rt.options.timeout > 0 then now + rt.options.timeout else 0;
    Request(requested, if exact then requested else 1, requested, if exact then requested else Max(1, rt.ceiling),
            exact, rt.options.policy, deadline)
  }

  /** Only this makes admit_resources refuse before it asks. */
  predicate TimeoutMissing(rt: Runtime)
  {
    rt.options.policy.WaitUntilDeadline? && rt.options.timeout <= 0
  }

  /** The request of a prepared operation is complete as it is built, and the governor finds it neither
      invalid nor impossible. */
  lemma RequestAlwaysAdmissible(rt: Runtime, found: Option<Profile>, available: bool, loaded: bool, firstUse: bool,
                                items: nat, kind: Kind, now: nat)
    requires Constructed(rt) && items <= SIZE_MAX && !TimeoutMissing(rt)
    requires Prepare(rt, found, available, loaded, firstUse).WithPlan?
    ensures var plan := Prepare(rt, found, available, loaded, firstUse).plan;
      var r := BuildRequest(rt, Workers(rt, plan, items, kind), now);
      && Normalize(r) == r && Classify(r, rt.cpuBudget) == None
      && (rt.options.mode.Deterministic? ==> r.exact && plan.Some? && r.requested == PlanWorkers(plan.value))
      && (rt.options.mode.Adaptive? ==> Need(r) == 1 && r.maximum == rt.ceiling)
      && r.policy == rt.options.policy && (r.policy.WaitUntilDeadline? ==> r.deadline == now + rt.options.timeout)
  {
    var plan := Prepare(rt, found, available, loaded, firstUse).plan;
    PlanFitsCeiling(rt, found, available, loaded, firstUse);
    UsefulIsEnough(rt.ceiling, plan, items, kind);
  }

  // ----- nesting

  /** What a nested operation gets out of the lease it runs under, which is the root's at every depth. */
  function NestedGrant(requested: nat, rootGrant: nat): nat
  {
    Min(requested, rootGrant)
  }

  /** What an ExecutionContext passes down: the control of the lease it runs under, a node of the lease
      forest that all nested operations share, and the concurrency it was left with. */
  datatype Context = Context(node: nat, concurrency: nat)

  /** The context of an operation nested in ctx that asks for so many workers. */
  function Nest(f: Leases.Forest, ctx: Context, asked: nat): Context
    requires ctx.node in f.nodes
  {
    ctx.(concurrency := Max(1, NestedGrant(asked, f.nodes[ctx.node].granted)))
  }

  /** A chain of operations, each nested in the one before. */
  function NestAll(f: Leases.Forest, ctx: Context, asked: seq<nat>): (r: Context)
    requires ctx.node in f.nodes
    ensures r.node == ctx.node
  {
    if asked == [] then ctx else Nest(f, NestAll(f, ctx, asked[..|asked| - 1]), asked[|asked| - 1])
  }

  /** The lease that node n stands for is held, and its permits cover that many workers. */
  predicate Backed(f: Leases.Forest, n: nat, workers: nat)
  {
    n in f.nodes &&
    var id := f.nodes[n].lease;
    id < |f.g.log| && f.g.log[id].Held? && workers <= f.g.log[id].workers <= f.g.permits
  }

  /** At every depth a nested operation runs within the grant of the lease, whose permits the governor still
      counts; but it may exceed the concurrency its own parent was narrowed to: it stays within it exactly
      when it asks for no more than its parent did, or its parent already had the whole grant. */
  lemma NestedBound(f: Leases.Forest, ctx: Context, asked: seq<nat>)
    requires Leases.ForestOk(f) && ctx.node in f.nodes
    requires |asked| >= 2 && forall i :: 0 <= i < |asked| ==> asked[i] >= 1
    ensures var n, grant := |asked| - 1, f.nodes[ctx.node].granted;
      var parent, child := NestAll(f, ctx, asked[..n]), NestAll(f, ctx, asked);
      && 1 <= child.concurrency <= grant && Backed(f, ctx.node, grant)
      && child.concurrency == NestedGrant(asked[n], grant)
      && (child.concurrency <= parent.concurrency <==> asked[n] <= asked[n - 1] || grant <= asked[n - 1])
  {
    Leases.HandleKeepsPermits(f, ctx.node);
    hide Leases.ForestOk;
    assert asked[..|asked| - 1][|asked| - 2] == asked[|asked| - 2];
  }

  /** It does happen: under a lease of eight, an operation narrowed to two has a child that runs on eight. */
  lemma ChildMayExceedParent(f: Leases.Forest, ctx: Context)
    requires ctx.node in f.nodes && f.nodes[ctx.node].granted == 8
    ensures NestAll(f, ctx, [2]).concurrency == 2 && NestAll(f, ctx, [2, 8]).concurrency == 8
  {
    assert [2, 8][..1] == [2] && [2][..0] == [];
  }

  // ----- admission

  datatype Verdict = Admitted | Threw | Refused(status: Status) | Waits(id: nat)

  /** The telemetry of a Runtime that admission counts. */
  class RuntimeState {
    const rt: Runtime
    var leaseRequests: nat
    var leaseGrants: nat
    var leaseRejections: nat
    var nestedLeaseReuses: nat

    constructor (rt: Runtime)
      requires Constructed(rt)
      ensures this.rt == rt && leaseRequests == leaseGrants == leaseRejections == nestedLeaseReuses == 0
    {
      this.rt := rt;
      leaseRequests, leaseGrants, leaseRejections, nestedLeaseReuses := 0, 0, 0, 0;
    }
  }

  /** PreparedSemanticOperation, as far as admission changes it. */
  class Operation {
    const state: RuntimeState
    const parentGrant: Option<nat>      // the grant of the lease the context already holds
    const workers: nat                  // requested == preferred
    var plan: Option<Plan>
    var granted: nat
    var concurrencyBudget: nat
    var lease: Option<nat>

    ghost predicate Ready()
      reads this
    {
      && Constructed(state.rt) && 1 <= workers <= state.rt.ceiling
      && (state.rt.options.mode.Deterministic? ==> plan.Some? && workers == PlanWorkers(plan.value))
      && (state.rt.options.mode.Adaptive? && plan.Some? ==> workers == PlanWorkers(plan.value))
    }

    constructor (state: RuntimeState, plan: Option<Plan>, parentGrant: Option<nat>, items: nat, kind: Kind)
      requires Constructed(state.rt) && items <= SIZE_MAX
      requires plan.Some? ==> PlanWorkers(plan.value) <= state.rt.ceiling
      requires state.rt.options.mode.Deterministic? ==> plan.Some?
      ensures Ready() && this.state == state && this.plan == plan && this.parentGrant == parentGrant
      ensures workers == Workers(state.rt, plan, items, kind)
    {
      UsefulIsEnough(state.rt.ceiling, plan, items, kind);
      this.state, this.plan, this.parentGrant := state, plan, parentGrant;
      workers := Workers(state.rt, plan, items, kind);
      granted, concurrencyBudget, lease := 0, 0, None;
    }

    /** The branch of admit_resources for an operation inside a lease, namely node n of the forest: the
        governor is not asked, and its permits for the root of the lease cover the grant. */
    method AdmitNested(ghost f: Leases.Forest, ghost n: nat) returns (verdict: Verdict)
      requires Leases.ForestOk(f) && n in f.nodes && parentGrant == Some(f.nodes[n].granted)
      requires Ready()
      modifies this`granted, this`concurrencyBudget, state`nestedLeaseReuses
      ensures verdict.Admitted? || verdict.Threw?
      ensures verdict.Threw? <==> state.rt.options.mode.Deterministic? && parentGrant.value < workers
      ensures verdict.Admitted? ==>
                && granted == Min(workers, parentGrant.value) <= parentGrant.value
                && concurrencyBudget == Max(1, granted)
                && (state.rt.options.mode.Deterministic? ==> granted == PlanWorkers(plan.value) == concurrencyBudget)
                && state.nestedLeaseReuses == old(state.nestedLeaseReuses) + 1
      ensures verdict.Admitted? ==>
                && granted >= 1 && Backed(f, n, granted)
                && concurrencyBudget == Nest(f, Context(n, 0), workers).concurrency
      ensures verdict.Threw? ==> granted == old(granted) && state.nestedLeaseReuses == old(state.nestedLeaseReuses)
    {
      Leases.HandleKeepsPermits(f, n);
      hide Leases.ForestOk;
      if state.rt.options.mode.Deterministic? && parentGrant.value < workers { return Threw; }
      granted := Min(workers, parentGrant.value);
      state.nestedLeaseReuses := state.nestedLeaseReuses + 1;
      concurrencyBudget := Max(1, granted);
      verdict := Admitted;
    }

    /** The branch for a root operation, up to the answer of the governor or its first wait. */
    method AdmitRoot(governor: Governor.GovernorState, now: nat) returns (verdict: Verdict, ghost trace: seq<Micro>)
      requires Ready() && parentGrant.None? && Inv(governor.Model()) && governor.budget == state.rt.cpuBudget
      modifies this, state, governor
      ensures Exec(old(governor.Model()), trace) == Some(governor.Model()) && Inv(governor.Model())
      ensures TimeoutMissing(state.rt) <==> verdict.Threw?
      ensures verdict.Threw? ==> governor.Model() == old(governor.Model())
      ensures verdict.Threw? ==> state.leaseRequests == old(state.leaseRequests)
      ensures verdict.Refused? ==> verdict.status !in {InvalidRequest, ImpossibleRequest, Granted}
      ensures verdict.Admitted? ==> lease == Some(|old(governor.log)|) && HoldsLease(governor)
      ensures verdict.Waits? ==>
                && verdict.id == |old(governor.log)| < |governor.log| && governor.log[verdict.id].Queued?
                && governor.log[verdict.id].req == BuildRequest(state.rt, workers, now)
                && plan == old(plan)
      ensures !verdict.Threw? ==> state.leaseRequests == old(state.leaseRequests) + 1
    {
      if TimeoutMissing(state.rt) { return Threw, []; }
      var request := BuildRequest(state.rt, workers, now);
      state.leaseRequests := state.leaseRequests + 1;
      var id := |governor.log|;
      var outcome;
      outcome, trace := governor.Admit(request, false);
      match outcome
      case Waiting => verdict := Waits(id);
      case Rejected(status) =>
        Refuse();
        verdict := Refused(status);
      case Leased(workers) =>
        Settle(governor, id, workers);
        verdict := Admitted;
    }

    /** The operation holds its root lease and runs with exactly what it was granted. */
    ghost predicate HoldsLease(governor: Governor.GovernorState)
      reads this, governor
    {
      && lease.Some? && lease.value < |governor.log| && governor.log[lease.value].Held?
      && governor.log[lease.value].workers == granted == concurrencyBudget
      && 1 <= granted <= workers <= state.rt.ceiling
      && (plan.Some? ==> PlanWorkers(plan.value) == granted)
      && (state.rt.options.mode.Deterministic? ==> granted == workers)
    }

    method Refuse()
      modifies state`leaseRejections
      ensures state.leaseRejections == old(state.leaseRejections) + 1
    {
      state.leaseRejections := state.leaseRejections + 1;
    }

    /** After a successful acquire: a flexible plan shrinks to the grant. */
    method Settle(governor: Governor.GovernorState, id: nat, acquired: nat)
      requires Ready() && id < |governor.log|
      requires governor.log[id] == Held(governor.log[id].req, acquired) && GoodGrant(governor.log[id].req, acquired)
      requires governor.log[id].req.requested == workers
      requires governor.log[id].req.exact <==> state.rt.options.mode.Deterministic?
      modifies this, state`leaseGrants
      ensures lease == Some(id) && HoldsLease(governor) && state.leaseGrants == old(state.leaseGrants) + 1
      ensures state.rt.options.mode.Deterministic? ==> plan == old(plan)
      ensures plan.Some? <==> old(plan).Some?
      ensures plan.Some? && acquired == 1 && !state.rt.options.mode.Deterministic? && old(plan).value.jobCount != 1 ==>
                plan.value.strategy == Sequential && plan.value.chunkSize == 0
    {
      granted := acquired;
      state.leaseGrants := state.leaseGrants + 1;
      if !state.rt.options.mode.Deterministic? && plan.Some? && plan.value.jobCount != acquired {
        var jobs := Max(1, acquired);
        plan := Some(plan.value.(jobCount := jobs, parallel := jobs > 1));
        if !plan.value.parallel {
          plan := Some(plan.value.(strategy := Sequential, chunkSize := 0));
        }
      }
      lease := Some(id);
      concurrencyBudget := Max(1, granted);
    }

    /** The same after a wait: the governor has answered request id. */
    method AdmitAfterWait(governor: Governor.GovernorState, id: nat) returns (verdict: Verdict, ghost trace: seq<Micro>)
      requires Ready() && Inv(governor.Model()) && id < |governor.log|
      requires governor.log[id].Queued? || governor.log[id].Uncollected? || governor.log[id].CancelledFate?
      requires governor.log[id].req.requested == workers
      requires governor.log[id].req.exact <==> state.rt.options.mode.Deterministic?
      modifies this, state, governor
      ensures Exec(old(governor.Model()), trace) == Some(governor.Model()) && Inv(governor.Model())
      ensures !verdict.Threw?
      ensures verdict.Refused? ==> verdict.status !in {InvalidRequest, ImpossibleRequest, Granted}
      ensures verdict.Admitted? ==> lease == Some(id) && HoldsLease(governor)
      ensures verdict.Waits? ==> verdict.id == id && plan == old(plan)
    {
      var outcome;
      outcome, trace := governor.Resume(id);
      match outcome
      case Waiting => verdict := Waits(id);
      case Rejected(status) =>
        Refuse();
        verdict := Refused(status);
      case Leased(workers) =>
        Settle(governor, id, workers);
        verdict := Admitted;
    }
  }
}
