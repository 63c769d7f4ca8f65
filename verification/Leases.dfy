/** Lease trees on top of the governor: root leases own permits, inherited ones keep their parent alive.

    A node is one LeaseControl. `handles` counts the ExecutionLease and context pointers to it; a child
    counts as a pointer to its parent. A node without pointers is destroyed, which may destroy its parent. */
module Leases {
  import opened GovernorModel
  import opened GovernorInvariant
  import opened GovernorTheorems
  import opened Prelude

  datatype Node = Node(parent: Option<nat>, lease: nat, granted: nat, handles: nat)

  datatype Forest = Forest(g: Gov, nodes: map<nat, Node>, nextId: nat)

  datatype Action =
    | Govern(m: Micro)                      // anything the governor does except collecting and releasing
    | CollectRoot(id: nat) | Inherit(n: nat, workerLimit: nat) | ShareHandle(n: nat) | DropHandle(n: nat)

  predicate Childless(nodes: map<nat, Node>, n: nat)
  {
    forall m | m in nodes :: nodes[m].parent != Some(n)
  }

  /** What a falling handle leaves behind, and the root lease whose permits the destructors gave back. */
  datatype Fallout = Fallout(left: map<nat, Node>, released: Option<nat>)

  /** Destroy n if nothing points to it any more, then look at its parent. Only a root owns permits. */
  function Collapse(nodes: map<nat, Node>, n: nat): Fallout
    decreases n
  {
    if n !in nodes || nodes[n].handles > 0 || !Childless(nodes, n) then Fallout(nodes, None)
    else
      match nodes[n].parent
      case None => Fallout(nodes - {n}, Some(nodes[n].lease))
      case Some(p) => if p < n then Collapse(nodes - {n}, p) else Fallout(nodes - {n}, None)
  }

  predicate HasRoot(nodes: map<nat, Node>, lease: nat)
  {
    exists m | m in nodes :: nodes[m].parent.None? && nodes[m].lease == lease
  }

  function InheritedGrant(granted: nat, workerLimit: nat): nat
  {
    if workerLimit == 0 then granted else Min(workerLimit, granted)
  }

  function Lowered(nodes: map<nat, Node>, n: nat): map<nat, Node>
    requires n in nodes && nodes[n].handles > 0
  {
    nodes[n := nodes[n].(handles := nodes[n].handles - 1)]
  }

  function Do(f: Forest, a: Action): Option<Forest>
  {
    match a
    case Govern(m) =>
      if m.Collect? || m.Release? then None
      else (match Apply(f.g, m) case None => None case Some(g) => Some(f.(g := g)))
    case CollectRoot(id) =>
      (match Apply(f.g, Collect(id))
       case None => None
       case Some(g) =>
         Some(Forest(g, f.nodes[f.nextId := Node(None, id, g.log[id].workers, 1)], f.nextId + 1)))
    case Inherit(n, workerLimit) =>
      if n in f.nodes && f.nodes[n].handles > 0 then
        var p := f.nodes[n];
        Some(f.(nodes := f.nodes[f.nextId := Node(Some(n), p.lease, InheritedGrant(p.granted, workerLimit), 1)],
                nextId := f.nextId + 1))
      else None
    case ShareHandle(n) =>
      if n in f.nodes && f.nodes[n].handles > 0 then
        Some(f.(nodes := f.nodes[n := f.nodes[n].(handles := f.nodes[n].handles + 1)]))
      else None
    case DropHandle(n) =>
      if n in f.nodes && f.nodes[n].handles > 0 then
        match Collapse(Lowered(f.nodes, n), n)
        case Fallout(left, None) => Some(f.(nodes := left))
        case Fallout(left, Some(id)) =>
          match Apply(f.g, Release(id))
          case None => None
          case Some(g) => Some(f.(g := g, nodes := left))
      else None
  }

  // ----- invariant

  ghost predicate NodeOk(nodes: map<nat, Node>, n: nat, nextId: nat)
    requires n in nodes
  {
    && n < nextId && nodes[n].granted >= 1
    && (nodes[n].parent.Some? ==>
          var p := nodes[n].parent.value;
          p in nodes && p < n && nodes[n].lease == nodes[p].lease && nodes[n].granted <= nodes[p].granted)
  }

  /** Something points to the node: a handle or a child. */
  predicate Pointed(nodes: map<nat, Node>, n: nat)
    requires n in nodes
  {
    nodes[n].handles > 0 || !Childless(nodes, n)
  }

  predicate AllPointed(nodes: map<nat, Node>)
  {
    forall n :: n in nodes ==> Pointed(nodes, n)
  }

  ghost predicate TreeOk(nodes: map<nat, Node>, nextId: nat)
  {
    && (forall n :: n in nodes ==> NodeOk(nodes, n, nextId))
    && (forall m, n ::
          (m in nodes && n in nodes && nodes[m].parent.None? && nodes[n].parent.None?
              && nodes[m].lease == nodes[n].lease)
          ==> m == n)
  }

  /** The roots are exactly the held leases, each with the grant it was given. */
  ghost predicate Anchored(log: seq<Fate>, nodes: map<nat, Node>)
  {
    && (forall id :: 0 <= id < |log| && log[id].Held? ==> HasRoot(nodes, id))
    && (forall n :: n in nodes && nodes[n].parent.None? ==> RootOk(log, nodes[n]))
  }

  predicate RootOk(log: seq<Fate>, root: Node)
  {
    root.lease < |log| && log[root.lease].Held? && log[root.lease].workers == root.granted
  }

  ghost predicate TreesOk(log: seq<Fate>, nodes: map<nat, Node>, nextId: nat)
  {
    TreeOk(nodes, nextId) && AllPointed(nodes) && Anchored(log, nodes)
  }

  ghost predicate ForestOk(f: Forest)
  {
    Inv(f.g) && TreesOk(f.g.log, f.nodes, f.nextId)
  }

  // ----- what the invariant says

  /** Every live node has a live root in its tree, whose grant bounds its own. */
  lemma {:induction false} RootOf(nodes: map<nat, Node>, nextId: nat, n: nat) returns (r: nat)
    requires TreeOk(nodes, nextId) && n in nodes
    ensures r in nodes && nodes[r].parent.None? && nodes[r].lease == nodes[n].lease
    ensures 1 <= nodes[n].granted <= nodes[r].granted
    decreases n
  {
    assert NodeOk(nodes, n, nextId);
    if nodes[n].parent.None? {
      r := n;
    } else {
      r := RootOf(nodes, nextId, nodes[n].parent.value);
    }
  }

  /** While any handle of a tree lives, the permits of its root are still counted, and no lease of the tree
      grants more than the root holds. */
  lemma HandleKeepsPermits(f: Forest, n: nat)
    requires ForestOk(f) && n in f.nodes
    ensures var id := f.nodes[n].lease;
      && id < |f.g.log| && f.g.log[id].Held?
      && 1 <= f.nodes[n].granted <= f.g.log[id].workers <= f.g.permits
  {
    var r := RootOf(f.nodes, f.nextId, n);
    var id := f.nodes[n].lease;
    SumUpdate(PermitTally, f.g.log, id, f.g.log[id]);
  }

  lemma {:induction false} HandleBelow(f: Forest, n: nat) returns (m: nat)
    requires ForestOk(f) && n in f.nodes
    ensures m in f.nodes && f.nodes[m].handles > 0 && f.nodes[m].lease == f.nodes[n].lease
    decreases f.nextId - n
  {
    assert NodeOk(f.nodes, n, f.nextId) && Pointed(f.nodes, n);
    if f.nodes[n].handles > 0 {
      m := n;
    } else {
      var c :| c in f.nodes && f.nodes[c].parent == Some(n);
      assert NodeOk(f.nodes, c, f.nextId);
      m := HandleBelow(f, c);
    }
  }

  /** And only then: a lease that is still held has a handle somewhere in its tree. So its permits are
      released by the very step that drops the last handle, and, a fate being final, exactly once. */
  lemma HeldHasHandle(f: Forest, id: nat) returns (m: nat)
    requires ForestOk(f) && id < |f.g.log| && f.g.log[id].Held?
    ensures m in f.nodes && f.nodes[m].handles > 0 && f.nodes[m].lease == id
  {
    var r :| r in f.nodes && f.nodes[r].parent.None? && f.nodes[r].lease == id;
    m := HandleBelow(f, r);
  }

  // ----- every action keeps it

  /** The roots lost are those whose permits were released. */
  ghost predicate LostRoots(nodes: map<nat, Node>, out: Fallout)
  {
    && (forall m :: m in nodes && nodes[m].parent.None? ==> (m !in out.left <==> out.released == Some(nodes[m].lease)))
    && (out.released.Some? ==> HasRoot(nodes, out.released.value))
  }

  lemma {:induction false} CollapseKeeps(nodes: map<nat, Node>, n: nat, nextId: nat)
    requires TreeOk(nodes, nextId)
    requires forall m :: m in nodes && m != n ==> Pointed(nodes, m)
    ensures var left := Collapse(nodes, n).left;
      TreeOk(left, nextId) && AllPointed(left)
    decreases n
  {
    if n in nodes && !Pointed(nodes, n) {
      var cut := nodes - {n};
      CutKeepsTree(nodes, n, nextId);
      assert NodeOk(nodes, n, nextId);
      forall m | m in cut && nodes[n].parent != Some(m) ensures Pointed(cut, m) {
        CutKeepsPointed(nodes, n, m);
      }
      if nodes[n].parent.Some? {
        CollapseKeeps(cut, nodes[n].parent.value, nextId);
      }
    }
  }

  lemma {:induction false} CollapseLoses(nodes: map<nat, Node>, n: nat, nextId: nat)
    requires TreeOk(nodes, nextId)
    ensures var out := Collapse(nodes, n);
      && out.left.Keys <= nodes.Keys && (forall m :: m in out.left ==> out.left[m] == nodes[m])
      && LostRoots(nodes, out)
      && (out.released.Some? ==> n in nodes && out.released.value == nodes[n].lease)
    decreases n
  {
    if n in nodes && !Pointed(nodes, n) {
      CutKeepsTree(nodes, n, nextId);
      assert NodeOk(nodes, n, nextId);
      if nodes[n].parent.Some? {
        CollapseLoses(nodes - {n}, nodes[n].parent.value, nextId);
      }
    }
  }

  lemma CutKeepsPointed(nodes: map<nat, Node>, n: nat, m: nat)
    requires n in nodes && m in nodes && m != n && nodes[n].parent != Some(m) && Pointed(nodes, m)
    ensures Pointed(nodes - {n}, m)
  {
    if nodes[m].handles == 0 {
      var c :| c in nodes && nodes[c].parent == Some(m);
      assert c in nodes - {n};
    }
  }

  lemma FreshId(nodes: map<nat, Node>, nextId: nat)
    requires TreeOk(nodes, nextId)
    ensures nextId !in nodes
  {
    forall n | n in nodes ensures n != nextId {
      assert NodeOk(nodes, n, nextId);
    }
  }

  lemma CutKeepsTree(nodes: map<nat, Node>, n: nat, nextId: nat)
    requires TreeOk(nodes, nextId) && n in nodes && Childless(nodes, n)
    ensures TreeOk(nodes - {n}, nextId)
  {
    var cut := nodes - {n};
    forall m | m in cut ensures NodeOk(cut, m, nextId) {
      assert NodeOk(nodes, m, nextId);
    }
  }

  lemma HandlesOnly(nodes: map<nat, Node>, n: nat, h: nat, nextId: nat)
    requires TreeOk(nodes, nextId) && n in nodes
    ensures TreeOk(nodes[n := nodes[n].(handles := h)], nextId)
  {
    var nodes' := nodes[n := nodes[n].(handles := h)];
    forall m | m in nodes' ensures NodeOk(nodes', m, nextId) {
      assert NodeOk(nodes, m, nextId);
    }
  }

  lemma StillPointed(nodes: map<nat, Node>, nodes': map<nat, Node>, m: nat)
    requires m in nodes && Pointed(nodes, m) && m in nodes' && nodes'[m].handles >= nodes[m].handles
    requires forall c :: c in nodes ==> c in nodes' && nodes'[c].parent == nodes[c].parent
    ensures Pointed(nodes', m)
  {
    if nodes[m].handles == 0 {
      var c :| c in nodes && nodes[c].parent == Some(m);
      assert c in nodes' && nodes'[c].parent == Some(m);
    }
  }

  lemma LoweredKeeps(log: seq<Fate>, nodes: map<nat, Node>, nextId: nat, n: nat)
    requires TreesOk(log, nodes, nextId) && n in nodes && nodes[n].handles > 0
    ensures var lowered := Lowered(nodes, n);
      && TreeOk(lowered, nextId) && Anchored(log, lowered)
      && (forall m :: m in lowered && m != n ==> Pointed(lowered, m))
  {
    var lowered := Lowered(nodes, n);
    HandlesOnly(nodes, n, nodes[n].handles - 1, nextId);
    forall m | m in lowered && m != n ensures Pointed(lowered, m) {
      StillPointed(nodes, lowered, m);
    }
    SameRoots(log, nodes, lowered);
  }

  /** The log as the destructors leave it. */
  function LogAfter(log: seq<Fate>, released: Option<nat>): seq<Fate>
  {
    match released
    case None => log
    case Some(id) => if id < |log| then log[id := Released(log[id].req, Workers(log[id]))] else log
  }

  function Workers(f: Fate): nat
  {
    if f.Uncollected? || f.Held? || f.Released? then f.workers else 0
  }

  lemma DropTrees(log: seq<Fate>, nodes: map<nat, Node>, nextId: nat, n: nat)
    requires TreesOk(log, nodes, nextId) && n in nodes && nodes[n].handles > 0
    ensures var out := Collapse(Lowered(nodes, n), n);
      && TreesOk(LogAfter(log, out.released), out.left, nextId)
      && (out.released.Some? ==>
            out.released.value == nodes[n].lease && nodes[n].lease < |log| && log[nodes[n].lease].Held?)
  {
    var lowered := Lowered(nodes, n);
    LoweredKeeps(log, nodes, nextId, n);
    CollapseKeeps(lowered, n, nextId);
    CollapseLoses(lowered, n, nextId);
    var out := Collapse(lowered, n);
    var r := RootOf(lowered, nextId, n);
    assert RootOk(log, lowered[r]);
    if out.released.Some? {
      RootsAfterRelease(log, lowered, out);
    } else {
      RootsStay(log, lowered, out);
    }
  }

  lemma DropKeeps(f: Forest, n: nat)
    requires ForestOk(f) && n in f.nodes && f.nodes[n].handles > 0
    ensures Do(f, DropHandle(n)).Some? && ForestOk(Do(f, DropHandle(n)).value)
  {
    hide Inv, TreeOk, AllPointed, Anchored, Collapse;
    DropTrees(f.g.log, f.nodes, f.nextId, n);
    var released := Collapse(Lowered(f.nodes, n), n).released;
    if released.Some? {
      ReleaseKeeps(f.g, released.value);
    }
  }

  lemma ReleaseKeeps(g: Gov, id: nat)
    requires Inv(g) && id < |g.log| && g.log[id].Held?
    ensures Apply(g, Release(id)).Some?
    ensures var g' := Apply(g, Release(id)).value;
      Inv(g') && g'.log == LogAfter(g.log, Some(id))
  {
    StepKeepsInv(g, Release(id), Apply(g, Release(id)).value);
  }

  lemma RootsStay(log: seq<Fate>, nodes: map<nat, Node>, out: Fallout)
    requires Anchored(log, nodes) && LostRoots(nodes, out) && out.released.None?
    requires out.left.Keys <= nodes.Keys && forall m :: m in out.left ==> out.left[m] == nodes[m]
    ensures Anchored(log, out.left)
  {
    forall id | 0 <= id < |log| && log[id].Held? ensures HasRoot(out.left, id) {
      var r :| r in nodes && nodes[r].parent.None? && nodes[r].lease == id;
      assert r in out.left;
    }
  }

  lemma RootsAfterRelease(log: seq<Fate>, nodes: map<nat, Node>, out: Fallout)
    requires Anchored(log, nodes) && LostRoots(nodes, out)
    requires out.left.Keys <= nodes.Keys && forall m :: m in out.left ==> out.left[m] == nodes[m]
    requires out.released.Some? && out.released.value < |log|
    ensures Anchored(LogAfter(log, out.released), out.left)
  {
    var log' := LogAfter(log, out.released);
    forall id | 0 <= id < |log'| && log'[id].Held? ensures HasRoot(out.left, id) {
      var r :| r in nodes && nodes[r].parent.None? && nodes[r].lease == id;
      assert r in out.left;
    }
  }

  /** A step that neither collects nor releases enters no lease into the log. */
  lemma NewNotHeld(g: Gov, m: Micro, g': Gov, id: nat)
    requires Apply(g, m) == Some(g') && !m.Collect? && !m.Release? && |g.log| <= id < |g'.log|
    ensures !g'.log[id].Held?
  {
  }

  /** The trees only see which leases are held, and with how many workers. */
  lemma SameHeld(log: seq<Fate>, log': seq<Fate>, nodes: map<nat, Node>, nextId: nat)
    requires TreesOk(log, nodes, nextId) && |log| <= |log'|
    requires forall id :: 0 <= id < |log'| && log'[id].Held? ==> id < |log| && log[id].Held?
    requires forall id :: 0 <= id < |log| && log[id].Held? ==> log'[id] == log[id]
    ensures TreesOk(log', nodes, nextId)
  {
    forall n | n in nodes && nodes[n].parent.None? ensures RootOk(log', nodes[n]) {
      assert RootOk(log, nodes[n]);
    }
  }

  lemma GovernKeeps(f: Forest, m: Micro)
    requires ForestOk(f) && !m.Collect? && !m.Release? && Apply(f.g, m).Some?
    ensures ForestOk(f.(g := Apply(f.g, m).value))
  {
    hide Apply, Inv, TreesOk;
    var g := Apply(f.g, m).value;
    StepKeepsInv(f.g, m, g);
    StepLogGrows(f.g, m, g);
    forall id | 0 <= id < |g.log|
      ensures g.log[id].Held? ==> id < |f.g.log| && f.g.log[id].Held?
      ensures id < |f.g.log| && f.g.log[id].Held? ==> g.log[id] == f.g.log[id]
    {
      if id < |f.g.log| { HeldUntouched(f.g, m, g, id); } else { NewNotHeld(f.g, m, g, id); }
    }
    SameHeld(f.g.log, g.log, f.nodes, f.nextId);
  }

  lemma HeldUntouched(g: Gov, m: Micro, g': Gov, id: nat)
    requires Inv(g) && Apply(g, m) == Some(g') && !m.Collect? && !m.Release? && id < |g.log|
    ensures id < |g'.log| && (g.log[id].Held? ==> g'.log[id] == g.log[id]) && (g'.log[id].Held? ==> g.log[id].Held?)
  {
    if (m.CancelAt? || m.Withdraw? || m.BypassFront?) && m.i < |g.queue| {
      assert EntryOk(g.queue[m.i], g.log, g.budget, g.limit);
    }
    if m.GrantFront? {
      assert EntryOk(g.queue[0], g.log, g.budget, g.limit);
    }
  }

  lemma InheritTrees(log: seq<Fate>, nodes: map<nat, Node>, nextId: nat, n: nat, granted: nat)
    requires TreesOk(log, nodes, nextId) && n in nodes && 1 <= granted <= nodes[n].granted
    ensures TreesOk(log, nodes[nextId := Node(Some(n), nodes[n].lease, granted, 1)], nextId + 1)
  {
    FreshId(nodes, nextId);
    var child := Node(Some(n), nodes[n].lease, granted, 1);
    AddedChild(nodes, nextId, child);
    AddedPointed(nodes, nextId, child);
    SameRoots(log, nodes, nodes[nextId := child]);
  }

  lemma InheritKeeps(f: Forest, n: nat, workerLimit: nat)
    requires ForestOk(f) && n in f.nodes && f.nodes[n].handles > 0
    ensures ForestOk(Do(f, Inherit(n, workerLimit)).value)
  {
    assert NodeOk(f.nodes, n, f.nextId);
    InheritTrees(f.g.log, f.nodes, f.nextId, n, InheritedGrant(f.nodes[n].granted, workerLimit));
  }

  lemma AddedPointed(nodes: map<nat, Node>, nextId: nat, added: Node)
    requires nextId !in nodes && added.handles > 0 && AllPointed(nodes)
    ensures AllPointed(nodes[nextId := added])
  {
    forall m | m in nodes ensures Pointed(nodes[nextId := added], m) {
      StillPointed(nodes, nodes[nextId := added], m);
    }
  }

  lemma AddedChild(nodes: map<nat, Node>, nextId: nat, child: Node)
    requires TreeOk(nodes, nextId) && child.parent.Some? && child.parent.value in nodes
    requires var p := nodes[child.parent.value]; child.lease == p.lease && 1 <= child.granted <= p.granted
    ensures TreeOk(nodes[nextId := child], nextId + 1)
  {
    var nodes' := nodes[nextId := child];
    FreshId(nodes, nextId);
    assert NodeOk(nodes, child.parent.value, nextId);
    forall m | m in nodes' ensures NodeOk(nodes', m, nextId + 1) {
      if m in nodes { assert NodeOk(nodes, m, nextId); }
    }
  }

  lemma SameRoots(log: seq<Fate>, nodes: map<nat, Node>, nodes': map<nat, Node>)
    requires Anchored(log, nodes)
    requires forall m :: m in nodes ==> m in nodes' && nodes'[m] == nodes[m].(handles := nodes'[m].handles)
    requires forall m :: m in nodes' && m !in nodes ==> nodes'[m].parent.Some?
    ensures Anchored(log, nodes')
  {
    forall id | 0 <= id < |log| && log[id].Held? ensures HasRoot(nodes', id) {
      var r :| r in nodes && nodes[r].parent.None? && nodes[r].lease == id;
      assert nodes'[r].parent.None? && nodes'[r].lease == id;
    }
  }

  lemma ShareTrees(log: seq<Fate>, nodes: map<nat, Node>, nextId: nat, n: nat)
    requires TreesOk(log, nodes, nextId) && n in nodes
    ensures TreesOk(log, nodes[n := nodes[n].(handles := nodes[n].handles + 1)], nextId)
  {
    var nodes' := nodes[n := nodes[n].(handles := nodes[n].handles + 1)];
    HandlesOnly(nodes, n, nodes[n].handles + 1, nextId);
    forall m | m in nodes' ensures Pointed(nodes', m) {
      StillPointed(nodes, nodes', m);
    }
    SameRoots(log, nodes, nodes');
  }

  lemma CollectKeeps(f: Forest, id: nat)
    requires ForestOk(f) && Apply(f.g, Collect(id)).Some?
    ensures ForestOk(Do(f, CollectRoot(id)).value)
  {
    var f' := Do(f, CollectRoot(id)).value;
    StepKeepsInv(f.g, Collect(id), f'.g);
    assert FateOk(f.g.log[id]);
    FreshId(f.nodes, f.nextId);
    AddedRoot(f.g.log, f.nodes, f.nextId, id, f'.g.log[id]);
    AddedPointed(f.nodes, f.nextId, f'.nodes[f.nextId]);
  }

  lemma AddedRoot(log: seq<Fate>, nodes: map<nat, Node>, nextId: nat, id: nat, held: Fate)
    requires Anchored(log, nodes) && TreeOk(nodes, nextId) && nextId !in nodes
    requires id < |log| && !log[id].Held? && held.Held? && held.workers >= 1
    ensures var nodes' := nodes[nextId := Node(None, id, held.workers, 1)];
      TreeOk(nodes', nextId + 1) && Anchored(log[id := held], nodes')
  {
    var nodes', log' := nodes[nextId := Node(None, id, held.workers, 1)], log[id := held];
    forall m | m in nodes' ensures NodeOk(nodes', m, nextId + 1) {
      if m in nodes { assert NodeOk(nodes, m, nextId); }
    }
    forall d | 0 <= d < |log'| && log'[d].Held? ensures HasRoot(nodes', d) {
      if d == id {
        assert nodes'[nextId].parent.None? && nodes'[nextId].lease == id;
      } else {
        var r :| r in nodes && nodes[r].parent.None? && nodes[r].lease == d;
        assert nodes'[r] == nodes[r];
      }
    }
  }

  /** Every action keeps the forest in order, and dropping a handle is always possible. */
  lemma ActionKeeps(f: Forest, a: Action)
    requires ForestOk(f)
    ensures Do(f, a).Some? ==> ForestOk(Do(f, a).value)
    ensures a.DropHandle? && a.n in f.nodes && f.nodes[a.n].handles > 0 ==> Do(f, a).Some?
  {
    hide Inv, TreesOk, Apply, Collapse;
    if a.DropHandle? && a.n in f.nodes && f.nodes[a.n].handles > 0 {
      DropKeeps(f, a.n);
    } else if Do(f, a).Some? {
      match a
      case Govern(m) => GovernKeeps(f, m);
      case CollectRoot(id) => CollectKeeps(f, id);
      case Inherit(n, workerLimit) => InheritKeeps(f, n, workerLimit);
      case ShareHandle(n) => ShareTrees(f.g.log, f.nodes, f.nextId, n);
    }
  }

  lemma DropReleases(f: Forest, n: nat, f': Forest)
    requires TreeOk(f.nodes, f.nextId) && Do(f, DropHandle(n)) == Some(f')
    ensures |f'.g.log| == |f.g.log|
    ensures forall id :: 0 <= id < |f.g.log| ==>
              f'.g.log[id] == f.g.log[id] || (f'.g.log[id].Released? && f.nodes[n].lease == id)
  {
    HandlesOnly(f.nodes, n, f.nodes[n].handles - 1, f.nextId);
    CollapseLoses(Lowered(f.nodes, n), n, f.nextId);
    var out := Collapse(Lowered(f.nodes, n), n);
    if out.released.Some? {
      ReleaseChanges(f.g, out.released.value, f'.g);
    }
  }

  lemma ReleaseChanges(g: Gov, id: nat, g': Gov)
    requires Apply(g, Release(id)) == Some(g')
    ensures id < |g.log| && |g'.log| == |g.log| && g'.log[id].Released? && g'.log == g.log[id := g'.log[id]]
  {
  }

  lemma Unfinished(f: Forest, a: Action, f': Forest, id: nat)
    requires ForestOk(f) && Do(f, a) == Some(f') && id < |f.g.log| && f.g.log[id].Held?
    ensures id < |f'.g.log|
    ensures f'.g.log[id] == f.g.log[id] || (f'.g.log[id].Released? && a.DropHandle? && f.nodes[a.n].lease == id)
  {
    if a.Govern? {
      HeldUntouched(f.g, a.m, f'.g, id);
    } else if a.DropHandle? {
      DropReleases(f, a.n, f');
    }
  }

  /** A held lease is released by exactly the step after which its tree is gone, and that step drops a
      handle of that tree: never earlier, never by anything else, and never left behind. */
  lemma ReleasedWithLastHandle(f: Forest, a: Action, f': Forest, id: nat)
    requires ForestOk(f) && Do(f, a) == Some(f') && id < |f.g.log| && f.g.log[id].Held?
    ensures id < |f'.g.log| && (f'.g.log[id] == f.g.log[id] || f'.g.log[id].Released?)
    ensures f'.g.log[id].Released? <==> forall n :: n in f'.nodes ==> f'.nodes[n].lease != id
    ensures f'.g.log[id].Released? ==> a.DropHandle? && a.n in f.nodes && f.nodes[a.n].lease == id
  {
    ActionKeeps(f, a);
    Unfinished(f, a, f', id);
    if f'.g.log[id].Held? {
      var m := HeldHasHandle(f', id);
    } else {
      forall n | n in f'.nodes ensures f'.nodes[n].lease != id {
        HandleKeepsPermits(f', n);
      }
    }
  }

  /** A whole run of governor and leases. */
  function Play(f: Forest, actions: seq<Action>): Option<Forest>
  {
    if actions == [] then Some(f)
    else
      match Play(f, actions[..|actions| - 1])
      case None => None
      case Some(before) => Do(before, actions[|actions| - 1])
  }

  lemma {:induction false} PlayKeeps(budget: nat, limit: nat, actions: seq<Action>, f: Forest)
    requires budget > 0 && Play(Forest(Start(budget, limit), map[], 0), actions) == Some(f)
    ensures ForestOk(f) && f.g.budget == budget
  {
    if actions == [] {
      StartInv(budget, limit);
    } else {
      var before := Play(Forest(Start(budget, limit), map[], 0), actions[..|actions| - 1]).value;
      PlayKeeps(budget, limit, actions[..|actions| - 1], before);
      var a := actions[|actions| - 1];
      ActionKeeps(before, a);
      BudgetStays(before, a, f);
    }
  }

  lemma BudgetStays(f: Forest, a: Action, f': Forest)
    requires Do(f, a) == Some(f')
    ensures f'.g.budget == f.g.budget
  {
  }

  /** A nested operation never touches the governor's permits. */
  lemma InheritTakesNoPermits(f: Forest, n: nat, workerLimit: nat, f': Forest)
    requires ForestOk(f) && Do(f, Inherit(n, workerLimit)) == Some(f')
    ensures f'.g == f.g && f.nextId in f'.nodes && f.nextId !in f.nodes
    ensures 1 <= f'.nodes[f.nextId].granted <= f.nodes[n].granted
    ensures workerLimit > 0 ==> f'.nodes[f.nextId].granted <= workerLimit
  {
    assert NodeOk(f.nodes, n, f.nextId);
    FreshId(f.nodes, f.nextId);
  }
}
