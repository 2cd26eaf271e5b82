/** The parts together.  A graph run is launched from what compilation and lend binding produced, its nodes
    are started by the counter protocol alone, and the exclusion theorem holds of the whole: the compiled
    order and the lend decision are not assumed of the protocol but supplied by the other modules. */
module Composition {
  import opened Pipes
  import opened Walks
  import opened Cascade
  import opened CascadeRun
  import opened Exclusion
  import opened Progress
  import C = GraphCompile
  import R = GraphRun
  import B = LendBinding

  // ---- from compiled graph and bound links to tasks ---------------------------------------------------

  /** One launch: the declared nodes and explicit edges, the compiled graph, the nodes' pipes, and what the
      caller holds and lends.  `instances[i]` is the object behind `pipes[i]`, `needs[i]` the strongest
      mode any node has on it. */
  datatype Plan = Plan(
    decls: seq<C.NodeDecl>,
    explicit: seq<(int, int)>,
    graph: R.Graph,
    nodes: seq<B.Node>,
    pipes: seq<nat>,
    instances: seq<int>,
    needs: seq<Mode>,
    parent: Option<nat>,
    held: seq<Option<Mode>>,
    lent: seq<bool>)

  /** The pipes of node `n` stand for objects it declared, in the declared modes. */
  predicate NodeMatches(p: Plan, n: nat)
    requires n < |p.nodes| == |p.decls| && |p.instances| == |p.pipes| == |p.needs| && B.NodeOk(p.nodes[n], |p.pipes|)
  {
    forall k :: 0 <= k < |p.nodes[n].indices| ==>
      && (p.instances[p.nodes[n].indices[k]], p.nodes[n].modes[k]) in p.decls[n].access
      && Covers(p.needs[p.nodes[n].indices[k]], p.nodes[n].modes[k])
  }

  /** What compilation established. */
  ghost predicate IsCompiled(p: Plan) {
    && R.Compiled(p.graph) && C.EdgesAre(p.graph.edges, p.decls, p.explicit)
    && |p.graph.successors| == |p.decls| == |p.nodes| && |p.instances| == |p.pipes| == |p.needs|
    && B.Climbing(p.pipes) && B.NodesOk(p.nodes, |p.pipes|)
    && forall n: nat :: n < |p.nodes| ==> NodeMatches(p, n)
  }

  /** What the launch found: the caller, if any, is in its body and holds what it says; lending needs its
      earlier nested runs settled. */
  ghost predicate InContext(s: System, p: Plan) {
    && (forall i :: 0 <= i < |p.pipes| ==> p.pipes[i] < |s.pipes|)
    && (p.parent.Some? ==> p.parent.value < |s.tasks| && s.tasks[p.parent.value].phase == Active)
    && (forall i :: 0 <= i < |p.held| && i < |p.pipes| && p.held[i].Some? ==>
          p.parent.Some? && Link(p.pipes[i], p.held[i].value) in s.tasks[p.parent.value].declared)
    && (B.Any(p.lent) ==> p.parent.Some? && ChildrenDone(s, p.parent.value))
  }

  ghost predicate CanLaunch(s: System, p: Plan) {
    IsCompiled(p) && B.LentFor(p.held, p.needs, p.lent) && InContext(s, p)
  }

  function DeclaredLinks(p: Plan, n: nat): seq<Link>
    requires n < |p.nodes| && B.NodeOk(p.nodes[n], |p.pipes|)
  {
    var node := p.nodes[n];
    seq(|node.indices|, k requires 0 <= k < |node.indices| => Link(p.pipes[node.indices[k]], node.modes[k]))
  }

  function CellLinks(cells: seq<B.Cell>): seq<Link> {
    seq(|cells|, k requires 0 <= k < |cells| => Link(cells[k].pipe, cells[k].mode))
  }

  /** The predecessors of node `m`, as tasks of a run whose first node is task `base`. */
  ghost function NodePreds(g: Edges, base: nat, m: int): set<nat> {
    set q | q in C.Preds(g, m) && q >= 0 :: base + q
  }

  lemma NodePredsIn(g: Edges, base: nat, m: int, t: nat)
    ensures t in NodePreds(g, base, m) <==> t >= base && (t - base, m) in g
  {
    C.PredsIn(g, t - base, m);
    if t >= base && t - base in C.Preds(g, m) {
      assert base + (t - base) == t;
    }
    if t in NodePreds(g, base, m) {
      var q :| q in C.Preds(g, m) && q >= 0 && base + q == t;
      C.PredsIn(g, q, m);
    }
  }

  /** The task a node becomes: it touches all its objects and takes turns on the bound links only. */
  ghost function NodeTask(p: Plan, base: nat, n: nat): Task
    requires n < |p.nodes| && B.NodeOk(p.nodes[n], |p.pipes|) && |p.lent| == |p.pipes|
  {
    var links := CellLinks(B.AllOf(p.nodes[n], n, p.pipes, p.lent));
    Task(DeclaredLinks(p, n), links, seq(|links|, _ => Stage.Idle), Locks(|links|), Dormant, 0,
         p.parent, base, NodePreds(p.graph.edges, base, n))
  }

  ghost function Batch(p: Plan, base: nat): seq<Task>
    requires B.NodesOk(p.nodes, |p.pipes|) && |p.lent| == |p.pipes|
  {
    seq(|p.nodes|, n requires 0 <= n < |p.nodes| => assert B.NodeOk(p.nodes[n], |p.pipes|); NodeTask(p, base, n))
  }

  /** A bound link is one of the node's own, and not lent. */
  lemma BoundLink(p: Plan, n: nat, i: nat) returns (j: nat)
    requires n < |p.nodes| && B.NodeOk(p.nodes[n], |p.pipes|) && |p.lent| == |p.pipes| && B.Climbing(p.pipes)
    requires i < |B.AllOf(p.nodes[n], n, p.pipes, p.lent)|
    ensures j < |p.nodes[n].indices| && !p.lent[p.nodes[n].indices[j]]
    ensures CellLinks(B.AllOf(p.nodes[n], n, p.pipes, p.lent))[i] == DeclaredLinks(p, n)[j]
  {
    var node := p.nodes[n];
    B.PackedIsNumbered(node, n, p.pipes, p.lent, |node.indices|, i);
    var c := B.AllOf(node, n, p.pipes, p.lent)[i];
    j :| 0 <= j < |node.indices| && B.LinkOf(node, p.pipes, p.lent, c, j);
  }

  /** An object that is not lent keeps its turn. */
  lemma UnlentIsBound(p: Plan, n: nat, k: nat)
    requires n < |p.nodes| && B.NodeOk(p.nodes[n], |p.pipes|) && |p.lent| == |p.pipes| && k < |p.nodes[n].indices|
    requires !p.lent[p.nodes[n].indices[k]]
    ensures DeclaredLinks(p, n)[k] in CellLinks(B.AllOf(p.nodes[n], n, p.pipes, p.lent))
  {
    var node := p.nodes[n];
    var cells := B.AllOf(node, n, p.pipes, p.lent);
    B.PackedHasAll(node, n, p.pipes, p.lent, |node.indices|, k);
    var c :| 0 <= c < |cells| && cells[c].pipe == p.pipes[node.indices[k]] && cells[c].mode == node.modes[k];
    assert CellLinks(cells)[c] == DeclaredLinks(p, n)[k];
  }

  /** An object a node takes no turn on is covered by what its caller declared. */
  lemma LentIsCovered(s: System, p: Plan, n: nat, k: nat)
    requires CanLaunch(s, p) && n < |p.nodes| && k < |p.nodes[n].indices|
    requires B.NodeOk(p.nodes[n], |p.pipes|)
    requires DeclaredLinks(p, n)[k] !in CellLinks(B.AllOf(p.nodes[n], n, p.pipes, p.lent))
    ensures p.lent[p.nodes[n].indices[k]] && LentBy(s, p.parent, DeclaredLinks(p, n)[k])
  {
    var node := p.nodes[n];
    var i := node.indices[k];
    if !p.lent[i] {
      UnlentIsBound(p, n, k);
    }
    assert NodeMatches(p, n);
    assert B.Lends(p.held[i], p.needs[i]);
    var x := Link(p.pipes[i], p.held[i].value);
    assert x in s.tasks[p.parent.value].declared && Covers(x.mode, node.modes[k]);
  }

  lemma NodeLinks(s: System, p: Plan, n: nat)
    requires CanLaunch(s, p) && n < |p.nodes| && B.NodeOk(p.nodes[n], |p.pipes|)
    ensures var k := NodeTask(p, |s.tasks|, n);
      && Ascending(k.links) && Ascending(k.declared) && KnownPipes(s, k.links)
      && (forall l :: l in k.links ==> l in k.declared)
  {
    var cells := B.AllOf(p.nodes[n], n, p.pipes, p.lent);
    var links := CellLinks(cells);
    forall i | 0 <= i < |links| ensures links[i] in DeclaredLinks(p, n) && links[i].pipe < |s.pipes| {
      var j := BoundLink(p, n, i);
    }
    forall i, j | 0 <= i < j < |links| ensures links[i].pipe < links[j].pipe {
      B.PackedClimbs(p.nodes[n], n, p.pipes, p.lent, |p.nodes[n].indices|, i, j);
    }
  }

  lemma NodeIsBorn(s: System, p: Plan, n: nat)
    requires CanLaunch(s, p) && n < |p.nodes| && B.NodeOk(p.nodes[n], |p.pipes|)
    ensures Born(s, |s.tasks|, |p.nodes|, NodeTask(p, |s.tasks|, n))
  {
    var base := |s.tasks|;
    var k := NodeTask(p, base, n);
    NodeLinks(s, p, n);
    forall t | t in k.preds ensures base <= t < base + |p.nodes| {
      NodePredsIn(p.graph.edges, base, n, t);
      assert (t - base, n as int) in p.graph.edges;
    }
    forall d | d in k.declared && d !in k.links ensures LentBy(s, k.parent, d) && B.Any(p.lent) {
      var j :| 0 <= j < |k.declared| && k.declared[j] == d;
      LentIsCovered(s, p, n, j);
    }
    if Lends(k) {
      var d :| d in k.declared && d !in k.links;
      assert B.Any(p.lent);
    }
  }

  /** Two links on one pipe, one of them writing, stand for a declared conflict. */
  lemma SamePipeConflicts(p: Plan, i: nat, a: nat, j: nat, b: nat)
    requires IsCompiled(p) && i < |p.nodes| && j < |p.nodes|
    requires B.NodeOk(p.nodes[i], |p.pipes|) && B.NodeOk(p.nodes[j], |p.pipes|)
    requires a < |p.nodes[i].indices| && b < |p.nodes[j].indices|
    requires p.pipes[p.nodes[i].indices[a]] == p.pipes[p.nodes[j].indices[b]]
    requires p.nodes[i].modes[a] == ReadWrite || p.nodes[j].modes[b] == ReadWrite
    ensures C.Conflicting(p.decls[i], p.decls[j])
  {
    var u, v := p.nodes[i].indices[a], p.nodes[j].indices[b];
    assert u == v;
    assert NodeMatches(p, i) && NodeMatches(p, j);
    var x, y := (p.instances[u], p.nodes[i].modes[a]), (p.instances[v], p.nodes[j].modes[b]);
    assert x in p.decls[i].access && y in p.decls[j].access;
  }

  /** Nodes whose tasks conflict were declared in conflict, */
  lemma TasksConflict(p: Plan, base: nat, i: nat, j: nat)
    requires IsCompiled(p) && |p.lent| == |p.pipes| && i < j < |p.nodes|
    requires B.NodeOk(p.nodes[i], |p.pipes|) && B.NodeOk(p.nodes[j], |p.pipes|)
    requires Conflict(NodeTask(p, base, i), NodeTask(p, base, j))
    ensures C.Conflicting(p.decls[i], p.decls[j])
  {
    var k, l := NodeTask(p, base, i), NodeTask(p, base, j);
    var x, y :| x in k.declared && y in l.declared && x.pipe == y.pipe && (x.mode == ReadWrite || y.mode == ReadWrite);
    var a := DeclaredAt(p, i, x);
    var b := DeclaredAt(p, j, y);
    SamePipeConflicts(p, i, a, j, b);
  }

  lemma DeclaredAt(p: Plan, n: nat, x: Link) returns (k: nat)
    requires n < |p.nodes| && B.NodeOk(p.nodes[n], |p.pipes|) && x in DeclaredLinks(p, n)
    ensures k < |p.nodes[n].indices| && x == Link(p.pipes[p.nodes[n].indices[k]], p.nodes[n].modes[k])
  {
    k :| 0 <= k < |DeclaredLinks(p, n)| && DeclaredLinks(p, n)[k] == x;
  }

  /** so compilation gave them an edge. */
  lemma ConflictHasEdge(g: Edges, decls: seq<C.NodeDecl>, explicit: seq<(int, int)>, i: nat, j: nat)
    requires C.EdgesAre(g, decls, explicit) && i < j < |decls| && C.Conflicting(decls[i], decls[j])
    ensures (i as int, j as int) in g
  {
    assert C.Wanted(decls, explicit, (i as int, j as int));
  }

  lemma NodeAt(p: Plan, base: nat, n: nat)
    requires B.NodesOk(p.nodes, |p.pipes|) && |p.lent| == |p.pipes| && n < |p.nodes|
    ensures B.NodeOk(p.nodes[n], |p.pipes|) && Batch(p, base)[n] == NodeTask(p, base, n)
  {
  }

  lemma BatchIsOrdered(p: Plan, base: nat, i: nat, j: nat)
    requires IsCompiled(p) && |p.lent| == |p.pipes| && i < j < |p.nodes| && Conflict(Batch(p, base)[i], Batch(p, base)[j])
    ensures base + i in Batch(p, base)[j].preds
  {
    NodeAt(p, base, i);
    NodeAt(p, base, j);
    TasksConflict(p, base, i, j);
    ConflictHasEdge(p.graph.edges, p.decls, p.explicit, i, j);
    NodePredsIn(p.graph.edges, base, j, base + i);
  }

  /** A launched plan is a batch the protocol accepts: the compiled edges order every conflict and the
      lend decision covers every object without a turn. */
  lemma PlanIsABatch(s: System, p: Plan)
    requires CanLaunch(s, p)
    ensures BatchOk(s, Batch(p, |s.tasks|))
  {
    var base := |s.tasks|;
    var batch := Batch(p, base);
    forall n | 0 <= n < |batch| ensures Born(s, base, |batch|, batch[n]) {
      NodeAt(p, base, n);
      NodeIsBorn(s, p, n);
    }
    forall i, j | 0 <= i < j < |batch| ensures batch[i].parent == batch[j].parent {
      NodeAt(p, base, i);
      NodeAt(p, base, j);
    }
    forall i, j | 0 <= i < j < |batch| && Conflict(batch[i], batch[j]) ensures base + i in batch[j].preds {
      BatchIsOrdered(p, base, i, j);
    }
  }

  /** The tasks of a launch are the nodes: each touches exactly its node's objects in their modes, takes a
      turn on exactly those that are not lent, and follows exactly its compiled predecessors. */
  lemma LaunchedAsPlanned(s: System, p: Plan, n: nat, l: Link, q: nat)
    requires CanLaunch(s, p) && n < |p.nodes|
    ensures B.NodeOk(p.nodes[n], |p.pipes|) && |Batch(p, |s.tasks|)| == |p.nodes|
    ensures var k, node := Batch(p, |s.tasks|)[n], p.nodes[n];
      && (l in k.declared <==> exists i :: 0 <= i < |node.indices| && l == Link(p.pipes[node.indices[i]], node.modes[i]))
      && (l in k.links <==> exists i :: 0 <= i < |node.indices| && l == Link(p.pipes[node.indices[i]], node.modes[i])
                                        && !p.lent[node.indices[i]])
      && (|s.tasks| + q in k.preds <==> (q as int, n as int) in p.graph.edges)
      && k.parent == p.parent && k.phase == Dormant && k.gate == Locks(|k.links|)
  {
    NodeAt(p, |s.tasks|, n);
    NodePredsIn(p.graph.edges, |s.tasks|, n, |s.tasks| + q);
    var k, node := Batch(p, |s.tasks|)[n], p.nodes[n];
    if l in k.links {
      var i :| 0 <= i < |k.links| && k.links[i] == l;
      var j := BoundLink(p, n, i);
    }
    if i :| 0 <= i < |node.indices| && l == Link(p.pipes[node.indices[i]], node.modes[i]) {
      assert DeclaredLinks(p, n)[i] == l;
      if j :| 0 <= j < |node.indices| && l == Link(p.pipes[node.indices[j]], node.modes[j]) && !p.lent[node.indices[j]] {
        UnlentIsBound(p, n, j);
      }
    }
  }

  /** Where a node is in an order. */
  ghost function Place(order: seq<int>, m: int): nat {
    if m in order then var i :| 0 <= i < |order| && order[i] == m; i else |order|
  }

  lemma OrderRanks(g: Edges, order: seq<int>, q: int, m: int)
    requires Topological(g, order) && m in order && (q, m) in g
    ensures Place(order, q) < Place(order, m)
  {
    var i := Place(order, m);
    assert (q, order[i]) in g;
    assert q in order[..i];
    var j :| 0 <= j < i && order[..i][j] == q;
    assert order[j] == q && order[Place(order, q)] == q;
  }

  ghost function Extend(rank: nat -> nat, order: seq<int>, base: nat): nat -> nat {
    (t: nat) => if t < base then rank(t) else Place(order, t - base)
  }

  lemma NodeIsRanked(p: Plan, rank: nat -> nat, order: seq<int>, base: nat, n: nat, q: nat)
    requires B.NodesOk(p.nodes, |p.pipes|) && |p.lent| == |p.pipes| && n < |p.nodes|
    requires Topological(p.graph.edges, order) && n in order && q in Batch(p, base)[n].preds
    ensures q >= base && Extend(rank, order, base)(q) < Extend(rank, order, base)(base + n)
  {
    NodeAt(p, base, n);
    NodePredsIn(p.graph.edges, base, n, q);
    OrderRanks(p.graph.edges, order, q - base, n);
  }

  /** Compilation's topological order ranks the new tasks, so the progress theorem applies to them. */
  lemma PlanIsRanked(s: System, p: Plan, rank: nat -> nat, order: seq<int>)
    requires CanLaunch(s, p) && Rel(s) && Ranked(s, rank)
    requires Topological(p.graph.edges, order) && forall m :: 0 <= m < |p.nodes| ==> m in order
    ensures Ranked(s.(tasks := s.tasks + Batch(p, |s.tasks|)), Extend(rank, order, |s.tasks|))
  {
    var base := |s.tasks|;
    var batch := Batch(p, base);
    forall t: nat, q: nat | t < base + |batch| && q in (s.tasks + batch)[t].preds
      ensures Extend(rank, order, base)(q) < Extend(rank, order, base)(t)
    {
      if t < base {
        assert Placed(s, t) && q in s.tasks[t].preds;
      } else {
        assert (s.tasks + batch)[t] == batch[t - base];
        NodeIsRanked(p, rank, order, base, t - base, q);
      }
    }
  }

  /** Binding for a run and launching it: when the binding succeeds, what was bound is what the tasks take
      turns on, and they are a batch the protocol accepts. */
  method BindAndLaunch(graph: B.Graph, held: seq<Option<Mode>>, settled: bool, ghost s: System, ghost plan: Plan)
    returns (v: B.Verdict, ghost p: Plan)
    requires graph.Valid() && |held| == |graph.pipes|
    requires plan.nodes == graph.nodes && plan.pipes == graph.pipes && plan.needs == graph.needs && plan.held == held
    requires IsCompiled(plan) && InContext(s, plan.(lent := [])) && (settled && plan.parent.Some? ==> ChildrenDone(s, plan.parent.value))
    modifies graph, graph.slab
    ensures p == plan.(lent := graph.lent)
    ensures v == B.Ready ==> graph.Valid() && BatchOk(s, Batch(p, |s.tasks|))
  {
    v := graph.BindForRun(held, settled);
    p := plan.(lent := graph.lent);
    if v == B.Ready {
      if B.Any(p.lent) {
        var i :| 0 <= i < |p.lent| && p.lent[i];
        assert B.Lends(held[i], p.needs[i]);
      }
      assert IsCompiled(p) by {
        forall n: nat | n < |p.nodes| ensures NodeMatches(p, n) {
          assert NodeMatches(plan, n);
        }
      }
      PlanIsABatch(s, p);
    }
  }

  // ---- graph runs and protocol, step by step -----------------------------------------------------------

  /** A run of a compiled graph whose nodes are the tasks from `base` on. */
  datatype RunAt = RunAt(graph: R.Graph, base: nat, run: R.Run)

  datatype Joint = Joint(sys: System, runs: seq<RunAt>)

  /** Launch a graph run; spawn a single operation; start a triggered node; a step of a run's counters; a
      step of the protocol. */
  datatype JointLabel =
    | Launch(plan: Plan)
    | Operation(task: Task)
    | StartNode(r: nat, m: nat)
    | Counter(r: nat, l: R.Label)
    | Protocol(step: Label)

  /** The run's nodes are tasks with the compiled predecessors, and a node is past its body for the run only
      when its task has released all its pipes. */
  ghost predicate RunOk(s: System, x: RunAt) {
    && R.Inv(x.graph, x.run) && x.base + |x.graph.successors| <= |s.tasks|
    && forall m: nat :: m < |x.graph.successors| ==> NodeOk(s, x, m)
  }

  ghost predicate NodeOk(s: System, x: RunAt, m: nat)
    requires x.base + m < |s.tasks|
  {
    && s.tasks[x.base + m].preds == NodePreds(x.graph.edges, x.base, m)
    && (R.BodyOver(x.run, m) ==> IsDone(s, x.base + m))
  }

  ghost predicate JointInv(j: Joint) {
    && Inv(j.sys) && Rel(j.sys)
    && forall r :: 0 <= r < |j.runs| ==> RunOk(j.sys, j.runs[r])
  }

  predicate IsNode(j: Joint, t: nat) {
    exists r :: 0 <= r < |j.runs| && j.runs[r].base <= t < j.runs[r].base + |j.runs[r].graph.successors|
  }

  /** When a step may be taken.  Starting a node asks only whether its counter triggered it, never whether
      its predecessors are done. */
  ghost predicate CanTake(j: Joint, jl: JointLabel) {
    match jl
    case Launch(plan) => CanLaunch(j.sys, plan)
    case Operation(task) => task.preds == {} && BatchOk(j.sys, [task])
    case StartNode(r, m) =>
      && r < |j.runs| && m < |j.runs[r].run.status| && j.runs[r].run.status[m] == R.Triggered
      && j.runs[r].base + m < |j.sys.tasks| && j.sys.tasks[j.runs[r].base + m].phase == Dormant
    case Counter(r, l) =>
      && r < |j.runs| && R.Sized(j.runs[r].graph, j.runs[r].run) && R.Enabled(j.runs[r].graph, j.runs[r].run, l)
      && !l.Begin? && (l.End? ==> IsDone(j.sys, j.runs[r].base + l.v))
    case Protocol(l) =>
      !l.Spawn? && Enabled(j.sys, l) && (l.Start? || l.Inline? ==> !IsNode(j, l.t))
  }

  /** The counter protocol justifies the start: a triggered node's predecessors have released their pipes. */
  lemma PredsReleased(s: System, x: RunAt, m: nat)
    requires RunOk(s, x) && m < |x.graph.successors| && x.run.status[m] != R.Waiting
    ensures PredsDone(s, s.tasks[x.base + m])
  {
    assert NodeOk(s, x, m);
    forall t | t in s.tasks[x.base + m].preds ensures IsDone(s, t) {
      NodePredsIn(x.graph.edges, x.base, m, t);
      R.TriggeredAfterAll(x.graph, x.run, t - x.base, m);
      assert NodeOk(s, x, t - x.base);
    }
  }

  lemma TriggeredMayStart(j: Joint, r: nat, m: nat)
    requires JointInv(j) && CanTake(j, StartNode(r, m))
    ensures Enabled(j.sys, Start(j.runs[r].base + m))
  {
    assert RunOk(j.sys, j.runs[r]);
    PredsReleased(j.sys, j.runs[r], m);
  }

  ghost function Take(j: Joint, jl: JointLabel): Joint
    requires JointInv(j) && CanTake(j, jl)
  {
    match jl
    case Launch(plan) =>
      Joint(j.sys.(tasks := j.sys.tasks + Batch(plan, |j.sys.tasks|)),
            j.runs + [RunAt(plan.graph, |j.sys.tasks|, R.Armed(plan.graph))])
    case Operation(task) => j.(sys := j.sys.(tasks := j.sys.tasks + [task]))
    case StartNode(r, m) =>
      TriggeredMayStart(j, r, m);
      var x := j.runs[r];
      assert RunOk(j.sys, x);
      Joint(Apply(j.sys, Start(x.base + m)), j.runs[r := x.(run := R.Next(x.graph, x.run, R.Begin(m)))])
    case Counter(r, l) =>
      var x := j.runs[r];
      assert RunOk(j.sys, x);
      j.(runs := j.runs[r := x.(run := R.Next(x.graph, x.run, l))])
    case Protocol(l) => j.(sys := Apply(j.sys, l))
  }

  /** The protocol step a step of the whole makes, unless it is one of a run's counters. */
  ghost function Shadow(j: Joint, jl: JointLabel): Label
    requires JointInv(j) && CanTake(j, jl) && !jl.Counter?
  {
    match jl
    case Launch(plan) => Spawn(Batch(plan, |j.sys.tasks|))
    case Operation(task) => Spawn([task])
    case StartNode(r, m) => Start(j.runs[r].base + m)
    case Protocol(step) => step
  }

  lemma ShadowIsEnabled(j: Joint, jl: JointLabel)
    requires JointInv(j) && CanTake(j, jl) && !jl.Counter?
    ensures Enabled(j.sys, Shadow(j, jl))
  {
    if jl.Launch? {
      PlanIsABatch(j.sys, jl.plan);
    } else if jl.StartNode? {
      TriggeredMayStart(j, jl.r, jl.m);
    }
  }

  /** Every step of the whole is a step of the protocol, or leaves the tasks and pipes alone. */
  lemma EveryStepIsProtocol(j: Joint, jl: JointLabel)
    requires JointInv(j) && CanTake(j, jl)
    ensures jl.Counter? ==> Take(j, jl).sys == j.sys
    ensures !jl.Counter? ==> Enabled(j.sys, Shadow(j, jl)) && Take(j, jl).sys == Apply(j.sys, Shadow(j, jl))
  {
    if !jl.Counter? {
      ShadowIsEnabled(j, jl);
    }
  }

  /** A run is not disturbed by steps that add tasks or move tasks on. */
  lemma RunStays(s: System, s': System, x: RunAt)
    requires RunOk(s, x) && |s.tasks| <= |s'.tasks|
    requires forall t: nat :: t < |s.tasks| ==> s'.tasks[t].preds == s.tasks[t].preds && (IsDone(s, t) ==> IsDone(s', t))
    ensures RunOk(s', x)
  {
    forall m: nat | m < |x.graph.successors| ensures NodeOk(s', x, m) {
      assert NodeOk(s, x, m);
    }
  }

  lemma TasksStay(s: System, l: Label)
    requires Inv(s) && Rel(s) && Enabled(s, l)
    ensures |s.tasks| <= |Apply(s, l).tasks|
    ensures forall t: nat :: t < |s.tasks| ==>
      Apply(s, l).tasks[t].preds == s.tasks[t].preds && (IsDone(s, t) ==> IsDone(Apply(s, l), t))
  {
    if !l.Spawn? {
      StepForward(s, l);
      forall t: nat | t < |s.tasks|
        ensures Apply(s, l).tasks[t].preds == s.tasks[t].preds && (IsDone(s, t) ==> IsDone(Apply(s, l), t))
      {
        assert MovesOn(s, Apply(s, l), t);
      }
    }
  }

  lemma LaunchedRunOk(s: System, p: Plan)
    requires CanLaunch(s, p)
    ensures RunOk(s.(tasks := s.tasks + Batch(p, |s.tasks|)), RunAt(p.graph, |s.tasks|, R.Armed(p.graph)))
  {
    R.ArmedOk(p.graph);
    var s' := s.(tasks := s.tasks + Batch(p, |s.tasks|));
    var x := RunAt(p.graph, |s.tasks|, R.Armed(p.graph));
    forall m: nat | m < |p.graph.successors| ensures NodeOk(s', x, m) {
      assert B.NodeOk(p.nodes[m], |p.pipes|);
    }
  }

  /** A step of a run's counters keeps its nodes' bookkeeping. */
  lemma CounterKeeps(s: System, x: RunAt, l: R.Label)
    requires RunOk(s, x) && R.Enabled(x.graph, x.run, l) && (l.End? ==> IsDone(s, x.base + l.v))
    ensures RunOk(s, x.(run := R.Next(x.graph, x.run, l)))
  {
    R.StepKeepsInv(x.graph, x.run, l);
    var x' := x.(run := R.Next(x.graph, x.run, l));
    forall m: nat | m < |x.graph.successors| ensures NodeOk(s, x', m) {
      CounterKeepsNode(s, x, l, m);
    }
  }

  lemma CounterKeepsNode(s: System, x: RunAt, l: R.Label, m: nat)
    requires RunOk(s, x) && R.Enabled(x.graph, x.run, l) && (l.End? ==> IsDone(s, x.base + l.v)) && m < |x.graph.successors|
    ensures NodeOk(s, x.(run := R.Next(x.graph, x.run, l)), m)
  {
    assert NodeOk(s, x, m);
    OverOnlyByEnd(x.graph, x.run, l, m);
  }

  lemma OverOnlyByEnd(g: R.Graph, s: R.Run, l: R.Label, m: nat)
    requires R.Inv(g, s) && R.Enabled(g, s, l) && m < |s.status|
    ensures R.BodyOver(R.Next(g, s, l), m) ==> R.BodyOver(s, m) || (l.End? && l.v == m)
  {
    if l.Fire? {
      assert R.InReady(s, l.v, s.status[l.v].ready[0]);
    }
  }

  lemma CounterKeepsRuns(j: Joint, jl: JointLabel, r: nat)
    requires JointInv(j) && CanTake(j, jl) && jl.Counter? && r < |j.runs|
    ensures RunOk(j.sys, Take(j, jl).runs[r])
  {
    assert RunOk(j.sys, j.runs[r]);
    if r == jl.r {
      CounterKeeps(j.sys, j.runs[r], jl.l);
    }
  }

  lemma OldRunsStay(j: Joint, jl: JointLabel, r: nat)
    requires JointInv(j) && CanTake(j, jl) && !jl.Counter? && r < |j.runs|
    ensures RunOk(Take(j, jl).sys, j.runs[r])
  {
    EveryStepIsProtocol(j, jl);
    TasksStay(j.sys, Shadow(j, jl));
    assert RunOk(j.sys, j.runs[r]);
    RunStays(j.sys, Take(j, jl).sys, j.runs[r]);
  }

  lemma TakeKeepsRuns(j: Joint, jl: JointLabel, r: nat)
    requires JointInv(j) && CanTake(j, jl) && r < |Take(j, jl).runs|
    ensures RunOk(Take(j, jl).sys, Take(j, jl).runs[r])
  {
    if jl.Counter? {
      CounterKeepsRuns(j, jl, r);
    } else if r == |j.runs| {
      LaunchedRunOk(j.sys, jl.plan);
    } else {
      OldRunsStay(j, jl, r);
      if jl.StartNode? && r == jl.r {
        CounterKeeps(Take(j, jl).sys, j.runs[r], R.Begin(jl.m));
      }
    }
  }

  lemma TakeKeepsInv(j: Joint, jl: JointLabel)
    requires JointInv(j) && CanTake(j, jl)
    ensures JointInv(Take(j, jl))
  {
    EveryStepIsProtocol(j, jl);
    if !jl.Counter? {
      AnyStepKeepsAll(j.sys, Shadow(j, jl));
    }
    forall r | 0 <= r < |Take(j, jl).runs| ensures RunOk(Take(j, jl).sys, Take(j, jl).runs[r]) {
      TakeKeepsRuns(j, jl, r);
    }
  }

  // ---- every run of the whole ----------------------------------------------------------------------------

  ghost predicate Takes(j: Joint, jl: JointLabel, j': Joint) {
    JointInv(j) ==> CanTake(j, jl) && j' == Take(j, jl)
  }

  ghost predicate IsJointRun(states: seq<Joint>, labels: seq<JointLabel>) {
    && |states| == |labels| + 1 && Initial(states[0].sys) && states[0].runs == []
    && forall k :: 0 <= k < |labels| ==> Takes(states[k], labels[k], states[k + 1])
  }

  lemma {:induction false} JointRunKeeps(states: seq<Joint>, labels: seq<JointLabel>, n: nat)
    requires IsJointRun(states, labels) && n < |states|
    ensures JointInv(states[n])
    decreases n
  {
    if n == 0 {
      InitialOk(states[0].sys);
    } else {
      JointRunKeeps(states, labels, n - 1);
      assert Takes(states[n - 1], labels[n - 1], states[n]);
      TakeKeepsInv(states[n - 1], labels[n - 1]);
    }
  }

  /** Runs are added by launches only and never change their graph or place. */
  lemma RunsStayInPlace(j: Joint, jl: JointLabel)
    requires JointInv(j) && CanTake(j, jl)
    ensures |Take(j, jl).runs| == |j.runs| + (if jl.Launch? then 1 else 0)
    ensures forall r :: 0 <= r < |j.runs| ==> Take(j, jl).runs[r].graph == j.runs[r].graph && Take(j, jl).runs[r].base == j.runs[r].base
    ensures jl.Launch? ==> Take(j, jl).runs[|j.runs|] == RunAt(jl.plan.graph, |j.sys.tasks|, R.Armed(jl.plan.graph))
  {
  }

  predicate IsRunOf(j: Joint, r: nat, g: R.Graph, base: nat) {
    r < |j.runs| && j.runs[r].graph == g && j.runs[r].base == base
  }

  lemma StepKeepsPlace(states: seq<Joint>, labels: seq<JointLabel>, n: nat, r: nat, g: R.Graph, base: nat)
    requires IsJointRun(states, labels) && n < |labels|
    ensures IsRunOf(states[n], r, g, base) ==> IsRunOf(states[n + 1], r, g, base)
    ensures labels[n].Launch? ==> IsRunOf(states[n + 1], |states[n].runs|, labels[n].plan.graph, |states[n].sys.tasks|)
  {
    JointRunKeeps(states, labels, n);
    assert Takes(states[n], labels[n], states[n + 1]);
    RunsStayInPlace(states[n], labels[n]);
  }

  /** A launched run stays among the runs, with its graph and its place. */
  lemma {:induction false} LaunchedRunStays(states: seq<Joint>, labels: seq<JointLabel>, k: nat, n: nat)
    requires IsJointRun(states, labels) && k < n < |states| && labels[k].Launch?
    ensures IsRunOf(states[n], |states[k].runs|, labels[k].plan.graph, |states[k].sys.tasks|)
    decreases n
  {
    if k < n - 1 {
      LaunchedRunStays(states, labels, k, n - 1);
    }
    StepKeepsPlace(states, labels, n - 1, |states[k].runs|, labels[k].plan.graph, |states[k].sys.tasks|);
  }

  /** A node of a launched graph is started by its counter only, and when it has been started every compiled
      predecessor has released its pipes. */
  lemma NodesFollowTheCompiledOrder(states: seq<Joint>, labels: seq<JointLabel>, k: nat, n: nat, q: nat, m: nat)
    requires IsJointRun(states, labels) && k < n < |states| && labels[k].Launch? && m < |labels[k].plan.nodes|
    ensures var base := |states[k].sys.tasks|;
      && base + m < |states[n].sys.tasks|
      && (n < |labels| ==> labels[n] != Protocol(Start(base + m)) && labels[n] != Protocol(Inline(base + m)))
      && ((q as int, m as int) in labels[k].plan.graph.edges && states[n].sys.tasks[base + m].phase != Dormant ==>
            IsDone(states[n].sys, base + q))
  {
    LaunchFitsPlan(states, labels, k);
    LaunchedRunStays(states, labels, k, n);
    JointRunKeeps(states, labels, n);
    var base, r := |states[k].sys.tasks|, |states[k].runs|;
    NodeFollows(states[n].sys, states[n].runs[r], q, m);
    if n < |labels| {
      assert Takes(states[n], labels[n], states[n + 1]);
      assert IsNode(states[n], base + m);
    }
  }

  lemma LaunchFitsPlan(states: seq<Joint>, labels: seq<JointLabel>, k: nat)
    requires IsJointRun(states, labels) && k < |labels| && labels[k].Launch?
    ensures |labels[k].plan.graph.successors| == |labels[k].plan.nodes|
  {
    JointRunKeeps(states, labels, k);
    assert Takes(states[k], labels[k], states[k + 1]);
  }

  lemma NodeFollows(s: System, x: RunAt, q: nat, m: nat)
    requires Rel(s) && RunOk(s, x) && m < |x.graph.successors|
    ensures x.base + m < |s.tasks|
    ensures (q as int, m as int) in x.graph.edges && s.tasks[x.base + m].phase != Dormant ==> IsDone(s, x.base + q)
  {
    assert NodeOk(s, x, m) && Placed(s, x.base + m);
    NodePredsIn(x.graph.edges, x.base, m, x.base + q);
  }

  /** The headline, with nothing assumed of spawn or start: in every run of graphs launched from compilation
      and lend binding, driven by their counters, with single operations in between, two active bodies that
      touch one object, one of them writing, are a waiting caller and work nested in it under one holder. */
  lemma GraphBodiesAreNested(states: seq<Joint>, labels: seq<JointLabel>, n: nat, a: nat, d: Link, b: nat, e: Link)
    returns (h: nat, i: nat)
    requires IsJointRun(states, labels) && n < |states| && a != b
    requires ActiveBody(states[n].sys, a) && ActiveBody(states[n].sys, b)
    requires Touches(states[n].sys, a, d) && Touches(states[n].sys, b, e)
    requires d.pipe == e.pipe && (d.mode == ReadWrite || e.mode == ReadWrite)
    ensures ActiveBody(states[n].sys, h) && HasLink(states[n].sys, h, i) && PipeOf(states[n].sys, h, i) == d.pipe
    ensures NestedUnder(states[n].sys, a, b, d.pipe, h) || NestedUnder(states[n].sys, b, a, d.pipe, h)
  {
    JointRunKeeps(states, labels, n);
    h, i := ConflictIsNested(states[n].sys, a, d, b, e);
  }

  /** When a run's handle has settled, every node's task has released its pipes. */
  lemma HandleSettlesAfterRelease(states: seq<Joint>, labels: seq<JointLabel>, n: nat, r: nat, m: nat)
    requires IsJointRun(states, labels) && n < |states| && r < |states[n].runs|
    requires states[n].runs[r].run.settles == 1 && m < |states[n].runs[r].graph.successors|
    ensures IsDone(states[n].sys, states[n].runs[r].base + m)
  {
    JointRunKeeps(states, labels, n);
    var x := states[n].runs[r];
    assert RunOk(states[n].sys, x) && NodeOk(states[n].sys, x, m);
    assert R.Unfinished(x.run) == {};
    assert m in R.Unfinished(x.run) || x.run.status[m] == R.Finished;
  }
}
