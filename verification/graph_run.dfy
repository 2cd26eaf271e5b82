/** One run of a compiled graph: nodes are released by counting down their unmet predecessors, from
    whichever threads complete those predecessors (src/static_task_graph.cpp). */
module GraphRun {
  import opened Walks
  import opened GraphCompile

  /** `Completing(k, ready)`: the body and its nested work are over, the first `k` successors were
      counted down, and `ready` are those this node brought to zero and has not triggered yet. */
  datatype Status = Waiting | Triggered | Running | Completing(k: nat, ready: seq<int>) | Finished

  /** The compiled graph: edges, successor lists, indegrees. */
  datatype Graph = Graph(edges: Edges, successors: seq<seq<int>>, indegree: seq<int>)

  /** `kicked` is how far the kickoff loop over the roots got.  `triggers` counts the calls of
      `on_data_ready` per node, `settles` those of the run handle's settle; `rest` records the edges
      not counted down yet and `owner` which node's ready list a node is on (-1: none). */
  datatype Run = Run(
    remaining: seq<int>,
    status: seq<Status>,
    kicked: nat,
    remainingNodes: int,
    triggers: seq<nat>,
    settles: nat,
    rest: Edges,
    owner: seq<int>)

  datatype Label = Kick | Begin(v: nat) | End(v: nat) | Count(v: nat) | Fire(v: nat) | Close(v: nat)

  ghost predicate Compiled(g: Graph) {
    |g.indegree| == |g.successors| && SuccessorsOf(g.edges, g.successors) && IndegreesOf(g.edges, g.indegree)
  }

  function Armed(g: Graph): Run {
    var n := |g.successors|;
    Run(g.indegree, seq(n, _ => Waiting), 0, n, seq(n, _ => 0), if n == 0 then 1 else 0, g.edges, seq(n, _ => -1))
  }

  predicate Sized(g: Graph, s: Run) {
    |s.remaining| == |s.status| == |s.triggers| == |s.owner| == |g.successors| && s.kicked <= |g.successors|
  }

  predicate Enabled(g: Graph, s: Run, l: Label)
    requires Sized(g, s)
  {
    match l
    case Kick => s.kicked < |g.successors| == |g.indegree|
    case Begin(v) => v < |s.status| && s.status[v] == Triggered
    case End(v) => v < |s.status| && s.status[v] == Running
    case Count(v) => v < |s.status| && s.status[v].Completing? && s.status[v].k < |g.successors[v]|
    case Fire(v) =>
      v < |s.status| && s.status[v].Completing? && s.status[v].k == |g.successors[v]| && s.status[v].ready != []
    case Close(v) => v < |s.status| && s.status[v] == Completing(|g.successors[v]|, [])
  }

  function Trigger(s: Run, m: int): Run
    requires 0 <= m < |s.status| == |s.triggers|
  {
    s.(status := s.status[m := Triggered], triggers := s.triggers[m := s.triggers[m] + 1])
  }

  function SetStatus(s: Run, v: nat, x: Status): Run
    requires v < |s.status|
  {
    s.(status := s.status[v := x])
  }

  function CountDownOne(g: Graph, s: Run, v: nat): Run
    requires Sized(g, s) && v < |s.status| && s.status[v].Completing? && s.status[v].k < |g.successors[v]|
    requires 0 <= g.successors[v][s.status[v].k] < |s.remaining|
  {
    var Completing(k, ready) := s.status[v];
    var m := g.successors[v][k];
    var ready' := if s.remaining[m] == 1 then ready + [m] else ready;
    SetStatus(s, v, Completing(k + 1, ready')).(
      remaining := s.remaining[m := s.remaining[m] - 1],
      rest := s.rest - {(v, m)},
      owner := if s.remaining[m] == 1 then s.owner[m := v] else s.owner)
  }

  function Next(g: Graph, s: Run, l: Label): (s': Run)
    requires Inv(g, s) && Enabled(g, s, l)
    ensures Sized(g, s')
  {
    match l
    case Kick =>
      var s1 := s.(kicked := s.kicked + 1);
      if g.indegree[s.kicked] == 0 then Trigger(s1, s.kicked) else s1
    case Begin(v) => SetStatus(s, v, Running)
    case End(v) => SetStatus(s, v, Completing(0, []))
    case Count(v) =>
      assert g.successors[v][s.status[v].k] in g.successors[v];
      CountDownOne(g, s, v)
    case Fire(v) =>
      var Completing(k, ready) := s.status[v];
      assert InReady(s, v, ready[0]);
      Trigger(SetStatus(s, v, Completing(k, ready[1..])), ready[0]).(owner := s.owner[ready[0] := -1])
    case Close(v) =>
      SetStatus(s, v, Finished).(
        remainingNodes := s.remainingNodes - 1,
        settles := if s.remainingNodes == 1 then s.settles + 1 else s.settles)
  }

  // ---- the invariant -----------------------------------------------------------------------------

  predicate InReady(s: Run, q: nat, m: int) {
    q < |s.status| && s.status[q].Completing? && m in s.status[q].ready
  }

  /** Node `q` is past its body and has counted `m` down. */
  predicate Counted(g: Graph, s: Run, q: int, m: int)
    requires Sized(g, s)
  {
    && 0 <= q < |s.status|
    && match s.status[q]
       case Completing(k, _) => k <= |g.successors[q]| && m in g.successors[q][..k]
       case Finished => true
       case _ => false
  }

  ghost function Unfinished(s: Run): set<int> {
    set m | m in Below(|s.status|) && s.status[m] != Finished
  }

  ghost predicate NodeInv(g: Graph, s: Run, m: nat)
    requires Sized(g, s) && m < |s.status| && |g.indegree| == |g.successors|
  {
    && s.triggers[m] == (if s.status[m] == Waiting then 0 else 1)
    && (s.status[m] != Waiting ==> s.remaining[m] == 0)
    && (s.status[m].Completing? ==> s.status[m].k <= |g.successors[m]| && NoDup(s.status[m].ready))
    && (g.indegree[m] == 0 ==> (s.status[m] == Waiting <==> s.kicked <= m))
    && (s.owner[m] != -1 <==> s.status[m] == Waiting && s.remaining[m] == 0 && g.indegree[m] != 0)
    && (s.owner[m] == -1 || (0 <= s.owner[m] < |s.status| && InReady(s, s.owner[m], m)))
  }

  ghost predicate ReadyInv(g: Graph, s: Run)
    requires Sized(g, s)
  {
    forall q: nat, m :: InReady(s, q, m) ==> 0 <= m < |s.status| && s.owner[m] == q
  }

  ghost predicate RestInv(g: Graph, s: Run)
    requires Sized(g, s)
  {
    && IndegreesOf(s.rest, s.remaining)
    && forall e :: e in s.rest <==> e in g.edges && !Counted(g, s, e.0, e.1)
  }

  ghost predicate Inv(g: Graph, s: Run) {
    && Compiled(g) && Sized(g, s)
    && RestInv(g, s) && ReadyInv(g, s)
    && (forall m: nat :: m < |s.status| ==> NodeInv(g, s, m))
    && s.remainingNodes == |Unfinished(s)|
    && s.settles == (if s.remainingNodes == 0 then 1 else 0)
  }

  lemma ArmedOk(g: Graph)
    requires Compiled(g)
    ensures Inv(g, Armed(g))
  {
    var s := Armed(g);
    assert Unfinished(s) == Below(|s.status|);
    forall m: nat | m < |s.status| ensures NodeInv(g, s, m) {
    }
  }

  // ---- each step keeps it ------------------------------------------------------------------------

  /** A status change that neither leaves `Waiting` nor touches counting. */
  lemma BodyStep(g: Graph, s: Run, l: Label)
    requires Inv(g, s) && Enabled(g, s, l) && (l.Begin? || l.End?)
    ensures Inv(g, Next(g, s, l))
  {
    var s' := Next(g, s, l);
    assert Unfinished(s') == Unfinished(s);
    assert forall q: nat, m :: InReady(s', q, m) <==> InReady(s, q, m);
    assert forall q: nat, m :: Counted(g, s', q, m) <==> Counted(g, s, q, m);
    forall m: nat | m < |s'.status| ensures NodeInv(g, s', m) {
      assert NodeInv(g, s, m);
    }
  }

  lemma NodesAfterKick(g: Graph, s: Run, m: nat)
    requires Inv(g, s) && Enabled(g, s, Kick) && m < |s.status|
    ensures NodeInv(g, Next(g, s, Kick), m)
  {
    assert NodeInv(g, s, m) && NodeInv(g, s, s.kicked);
    if g.indegree[s.kicked] == 0 {
      RestIsSubset(g, s, s.kicked);
    }
    if s.owner[m] != -1 {
      assert InReady(s, s.owner[m], m);
    }
  }

  lemma KickStep(g: Graph, s: Run)
    requires Inv(g, s) && Enabled(g, s, Kick)
    ensures Inv(g, Next(g, s, Kick))
  {
    var s' := Next(g, s, Kick);
    assert NodeInv(g, s, s.kicked);
    assert Unfinished(s') == Unfinished(s);
    assert forall q: nat, m :: InReady(s', q, m) <==> InReady(s, q, m);
    assert forall q: nat, m :: Counted(g, s', q, m) <==> Counted(g, s, q, m);
    forall m: nat | m < |s'.status| ensures NodeInv(g, s', m) {
      NodesAfterKick(g, s, m);
    }
  }

  /** A root has nothing to wait for from the start. */
  lemma RestIsSubset(g: Graph, s: Run, m: nat)
    requires Compiled(g) && Sized(g, s) && RestInv(g, s) && m < |g.indegree| && g.indegree[m] == 0
    ensures s.remaining[m] == 0
  {
    assert Preds(s.rest, m) <= Preds(g.edges, m) by {
      forall q | q in Preds(s.rest, m) ensures q in Preds(g.edges, m) {
        PredsIn(s.rest, q, m);
        PredsIn(g.edges, q, m);
      }
    }
    assert Preds(s.rest, m) == {};
  }

  lemma CountedAfterCount(g: Graph, s: Run, v: nat)
    requires Inv(g, s) && Enabled(g, s, Count(v))
    ensures var m := g.successors[v][s.status[v].k];
      0 <= m < |s.status| && (v, m) in s.rest && s.remaining[m] > 0 && RestInv(g, Next(g, s, Count(v)))
  {
    var k := s.status[v].k;
    var m := g.successors[v][k];
    var succ := g.successors[v];
    var s' := Next(g, s, Count(v));
    assert m in succ;
    assert succ[..k + 1] == succ[..k] + [m];
    assert m !in succ[..k];
    assert (v, m) in s.rest;
    RemoveEdge(s.rest, s.remaining, v, m);
    forall e ensures e in s'.rest <==> e in g.edges && !Counted(g, s', e.0, e.1) {
      assert Counted(g, s', e.0, e.1) <==> Counted(g, s, e.0, e.1) || e == (v, m);
    }
  }

  /** The successor about to be counted down is on nobody's ready list. */
  lemma NotYetReady(g: Graph, s: Run, v: nat, m: nat)
    requires Inv(g, s) && v < |s.status| && m < |s.status| && s.remaining[m] > 0 && s.status[v].Completing?
    ensures s.owner[m] == -1 && m !in s.status[v].ready && s.status[m] == Waiting && m != v
    ensures g.indegree[m] != 0 && s.status[v].k <= |g.successors[v]| && NoDup(s.status[v].ready)
  {
    assert NodeInv(g, s, m) && NodeInv(g, s, v);
    RootsStayZero(g, s, m);
    if m in s.status[v].ready {
      assert InReady(s, v, m);
    }
  }

  lemma ReadyAfterCount(g: Graph, s: Run, v: nat)
    requires Inv(g, s) && Enabled(g, s, Count(v))
    ensures ReadyInv(g, Next(g, s, Count(v)))
  {
    CountedAfterCount(g, s, v);
    var m := g.successors[v][s.status[v].k];
    var s' := Next(g, s, Count(v));
    NotYetReady(g, s, v, m);
    forall q: nat, x | InReady(s', q, x) ensures 0 <= x < |s'.status| && s'.owner[x] == q {
      assert InReady(s, q, x) || (q == v && x == m);
    }
  }

  lemma NodesAfterCount(g: Graph, s: Run, v: nat, x: nat)
    requires Inv(g, s) && Enabled(g, s, Count(v)) && x < |s.status|
    ensures NodeInv(g, Next(g, s, Count(v)), x)
  {
    CountedAfterCount(g, s, v);
    var m := g.successors[v][s.status[v].k];
    var s' := Next(g, s, Count(v));
    NotYetReady(g, s, v, m);
    assert NodeInv(g, s, x);
    if x == m && s.remaining[m] == 1 {
      assert s'.status[v].ready[|s.status[v].ready|] == m;
      assert InReady(s', v, x);
    } else if s.owner[x] != -1 {
      assert InReady(s, s.owner[x], x);
      assert InReady(s', s.owner[x], x);
    }
  }

  lemma CountStep(g: Graph, s: Run, v: nat)
    requires Inv(g, s) && Enabled(g, s, Count(v))
    ensures Inv(g, Next(g, s, Count(v)))
  {
    CountedAfterCount(g, s, v);
    ReadyAfterCount(g, s, v);
    forall x: nat | x < |s.status| ensures NodeInv(g, Next(g, s, Count(v)), x) {
      NodesAfterCount(g, s, v, x);
    }
    assert Unfinished(Next(g, s, Count(v))) == Unfinished(s);
  }

  /** Only nodes with predecessors are ever counted down. */
  lemma RootsStayZero(g: Graph, s: Run, m: nat)
    requires Inv(g, s) && m < |s.status| && s.remaining[m] > 0
    ensures g.indegree[m] != 0
  {
    if g.indegree[m] == 0 {
      RestIsSubset(g, s, m);
    }
  }

  lemma ReadyAfterFire(g: Graph, s: Run, v: nat)
    requires Inv(g, s) && Enabled(g, s, Fire(v))
    ensures ReadyInv(g, Next(g, s, Fire(v)))
  {
    var s' := Next(g, s, Fire(v));
    var ready := s.status[v].ready;
    var m := ready[0];
    assert InReady(s, v, m) && NodeInv(g, s, v) && NodeInv(g, s, m);
    assert m !in ready[1..];
    forall q: nat, x | InReady(s', q, x) ensures 0 <= x < |s'.status| && s'.owner[x] == q {
      assert InReady(s, q, x);
      assert q != v ==> x != m;
    }
  }

  lemma NodesAfterFire(g: Graph, s: Run, v: nat, x: nat)
    requires Inv(g, s) && Enabled(g, s, Fire(v)) && x < |s.status|
    ensures NodeInv(g, Next(g, s, Fire(v)), x)
  {
    var s' := Next(g, s, Fire(v));
    var ready := s.status[v].ready;
    var m := ready[0];
    assert InReady(s, v, m) && NodeInv(g, s, v) && NodeInv(g, s, m) && NodeInv(g, s, x);
    if x != m && s.owner[x] != -1 {
      assert InReady(s, s.owner[x], x);
      assert InReady(s', s.owner[x], x);
    }
  }

  lemma FireStep(g: Graph, s: Run, v: nat)
    requires Inv(g, s) && Enabled(g, s, Fire(v))
    ensures Inv(g, Next(g, s, Fire(v)))
  {
    var s' := Next(g, s, Fire(v));
    var m := s.status[v].ready[0];
    assert InReady(s, v, m) && NodeInv(g, s, m);
    ReadyAfterFire(g, s, v);
    forall x: nat | x < |s.status| ensures NodeInv(g, s', x) {
      NodesAfterFire(g, s, v, x);
    }
    RestAfterFire(g, s, v);
    assert Unfinished(s') == Unfinished(s);
  }

  lemma RestAfterFire(g: Graph, s: Run, v: nat)
    requires Inv(g, s) && Enabled(g, s, Fire(v))
    ensures RestInv(g, Next(g, s, Fire(v)))
  {
    var s' := Next(g, s, Fire(v));
    assert InReady(s, v, s.status[v].ready[0]) && NodeInv(g, s, s.status[v].ready[0]);
    forall e ensures e in s'.rest <==> e in g.edges && !Counted(g, s', e.0, e.1) {
      assert Counted(g, s', e.0, e.1) <==> Counted(g, s, e.0, e.1);
    }
  }

  lemma RestAfterClose(g: Graph, s: Run, v: nat)
    requires Inv(g, s) && Enabled(g, s, Close(v))
    ensures RestInv(g, Next(g, s, Close(v)))
  {
    var s' := Next(g, s, Close(v));
    assert g.successors[v][..|g.successors[v]|] == g.successors[v];
    forall e ensures e in s'.rest <==> e in g.edges && !Counted(g, s', e.0, e.1) {
      assert e in g.edges && e.0 == v ==> e.1 in g.successors[v];
      assert e.0 != v ==> (Counted(g, s', e.0, e.1) <==> Counted(g, s, e.0, e.1));
    }
  }

  lemma NodesAfterClose(g: Graph, s: Run, v: nat, x: nat)
    requires Inv(g, s) && Enabled(g, s, Close(v)) && x < |s.status|
    ensures NodeInv(g, Next(g, s, Close(v)), x)
  {
    assert NodeInv(g, s, x) && NodeInv(g, s, v);
    if s.owner[x] != -1 {
      assert InReady(s, s.owner[x], x) && s.owner[x] != v;
    }
  }

  lemma CloseStep(g: Graph, s: Run, v: nat)
    requires Inv(g, s) && Enabled(g, s, Close(v))
    ensures Inv(g, Next(g, s, Close(v)))
  {
    var s' := Next(g, s, Close(v));
    RestAfterClose(g, s, v);
    assert forall q: nat, x :: InReady(s', q, x) ==> InReady(s, q, x);
    assert v in Unfinished(s);
    assert Unfinished(s') == Unfinished(s) - {v};
    forall x: nat | x < |s'.status| ensures NodeInv(g, s', x) {
      NodesAfterClose(g, s, v, x);
    }
  }

  lemma StepKeepsInv(g: Graph, s: Run, l: Label)
    requires Inv(g, s) && Enabled(g, s, l)
    ensures Inv(g, Next(g, s, l))
  {
    match l
    case Kick => KickStep(g, s);
    case Count(v) => CountStep(g, s, v);
    case Fire(v) => FireStep(g, s, v);
    case Close(v) => CloseStep(g, s, v);
    case _ => BodyStep(g, s, l);
  }

  // ---- what a run guarantees --------------------------------------------------------------------

  ghost predicate Step(g: Graph, s: Run, l: Label, s': Run) {
    Inv(g, s) ==> Enabled(g, s, l) && s' == Next(g, s, l)
  }

  ghost predicate IsRun(g: Graph, states: seq<Run>, labels: seq<Label>) {
    && Compiled(g) && |states| == |labels| + 1 && states[0] == Armed(g)
    && forall k :: 0 <= k < |labels| ==> Step(g, states[k], labels[k], states[k + 1])
  }

  lemma {:induction false} RunKeepsInv(g: Graph, states: seq<Run>, labels: seq<Label>, k: nat)
    requires IsRun(g, states, labels) && k < |states|
    ensures Inv(g, states[k])
    decreases k
  {
    if k == 0 {
      ArmedOk(g);
    } else {
      RunKeepsInv(g, states, labels, k - 1);
      assert Step(g, states[k - 1], labels[k - 1], states[k]);
      StepKeepsInv(g, states[k - 1], labels[k - 1]);
    }
  }

  /** The body of `q`, and everything nested in it, is over. */
  predicate BodyOver(s: Run, q: int) {
    0 <= q < |s.status| && Over(s.status[q])
  }

  predicate Over(x: Status) {
    x.Completing? || x == Finished
  }

  /** A node that has been triggered has every predecessor's body, and everything nested in it, over. */
  lemma TriggeredAfterAll(g: Graph, s: Run, q: int, m: nat)
    requires Inv(g, s) && m < |s.status| && s.status[m] != Waiting && (q, m) in g.edges
    ensures BodyOver(s, q)
  {
    assert NodeInv(g, s, m);
    assert Preds(s.rest, m) == {};
    PredsIn(s.rest, q, m);
    assert Counted(g, s, q, m);
  }

  /** In every state of every run a node was triggered at most once, and if it was triggered at all then
      every predecessor's body is over; the run handle has settled exactly once if all nodes finished
      and not at all before. */
  lemma NodesFollowTheirPredecessors(g: Graph, states: seq<Run>, labels: seq<Label>, k: nat, q: int, m: nat)
    requires IsRun(g, states, labels) && k < |states| && m < |g.successors|
    ensures Sized(g, states[k]) && states[k].triggers[m] <= 1
    ensures states[k].triggers[m] == 1 && (q, m) in g.edges ==> BodyOver(states[k], q)
    ensures states[k].settles == (if forall v :: 0 <= v < |g.successors| ==> states[k].status[v] == Finished then 1 else 0)
  {
    RunKeepsInv(g, states, labels, k);
    var s := states[k];
    assert NodeInv(g, s, m);
    if s.triggers[m] == 1 && (q, m) in g.edges {
      TriggeredAfterAll(g, s, q, m);
    }
    if s.remainingNodes == 0 {
      assert forall v :: 0 <= v < |g.successors| ==> v in Unfinished(s) || s.status[v] == Finished;
    } else {
      var v :| v in Unfinished(s);
    }
  }

  /** How often a step has been taken. */
  function Times(labels: seq<Label>, l: Label): nat {
    multiset(labels)[l]
  }

  lemma OneMore(labels: seq<Label>, k: nat, l: Label)
    requires 0 < k <= |labels|
    ensures Times(labels[..k], l) == Times(labels[..k - 1], l) + (if labels[k - 1] == l then 1 else 0)
  {
    assert labels[..k] == labels[..k - 1] + [labels[k - 1]];
  }

  /** A node's body is begun and ended at most once, and its place in the run says exactly which of the two
      has happened. */
  lemma {:induction false} BodyRunsOnce(g: Graph, states: seq<Run>, labels: seq<Label>, k: nat, v: nat)
    requires IsRun(g, states, labels) && k < |states| && v < |g.successors|
    ensures Sized(g, states[k])
    ensures Times(labels[..k], Begin(v)) == (if states[k].status[v] in {Waiting, Triggered} then 0 else 1)
    ensures Times(labels[..k], End(v)) == (if BodyOver(states[k], v) then 1 else 0)
    decreases k
  {
    if k == 0 {
      ArmedOk(g);
    } else {
      BodyRunsOnce(g, states, labels, k - 1, v);
      OneMore(labels, k, Begin(v));
      OneMore(labels, k, End(v));
      StatusMovesAt(g, states, labels, k - 1, v);
    }
  }

  lemma StatusMovesAt(g: Graph, states: seq<Run>, labels: seq<Label>, k: nat, v: nat)
    requires IsRun(g, states, labels) && k < |labels| && v < |g.successors|
    ensures Sized(g, states[k]) && Sized(g, states[k + 1]) && BodyMoves(labels[k], v, states[k].status[v], states[k + 1].status[v])
  {
    RunKeepsInv(g, states, labels, k);
    RunKeepsInv(g, states, labels, k + 1);
    assert Step(g, states[k], labels[k], states[k + 1]);
    StatusMoves(g, states[k], labels[k], v);
  }

  /** What a step does to a node, as far as its body is concerned. */
  predicate BodyMoves(l: Label, v: nat, x: Status, x': Status) {
    if l == Begin(v) then x == Triggered && x' == Running
    else if l == End(v) then x == Running && x'.Completing?
    else (x in {Waiting, Triggered} <==> x' in {Waiting, Triggered}) && (Over(x) <==> Over(x'))
  }

  lemma StatusMoves(g: Graph, s: Run, l: Label, v: nat)
    requires Inv(g, s) && Enabled(g, s, l) && v < |s.status|
    ensures BodyMoves(l, v, s.status[v], Next(g, s, l).status[v])
  {
    if l.Fire? {
      var m := s.status[l.v].ready[0];
      assert InReady(s, l.v, m) && NodeInv(g, s, m);
    } else if l.Kick? {
      assert NodeInv(g, s, s.kicked);
    }
  }

  /** In every run a body begins only after the bodies of all predecessors have ended. */
  lemma BodiesFollowEdges(g: Graph, states: seq<Run>, labels: seq<Label>, j: nat, q: int, m: nat)
    requires IsRun(g, states, labels) && j < |labels| && labels[j] == Begin(m) && (q, m) in g.edges
    ensures 0 <= q && End(q) in labels[..j]
  {
    RunKeepsInv(g, states, labels, j);
    assert Step(g, states[j], labels[j], states[j + 1]);
    TriggeredAfterAll(g, states[j], q, m);
    BodyRunsOnce(g, states, labels, j, q);
  }

  /** When the handle has settled, every node's body has run, once. */
  lemma SettledAfterEveryBody(g: Graph, states: seq<Run>, labels: seq<Label>, k: nat, v: nat)
    requires IsRun(g, states, labels) && k < |states| && v < |g.successors| && states[k].settles > 0
    ensures Times(labels[..k], Begin(v)) == 1 && Times(labels[..k], End(v)) == 1
  {
    NodesFollowTheirPredecessors(g, states, labels, k, 0, v);
    BodyRunsOnce(g, states, labels, k, v);
  }

  // ---- progress ---------------------------------------------------------------------------------

  /** A node that has been triggered but is not finished can take its next step. */
  lemma ActiveNodeSteps(g: Graph, s: Run, m: nat) returns (l: Label)
    requires Inv(g, s) && m < |s.status| && s.status[m] != Waiting && s.status[m] != Finished
    ensures Enabled(g, s, l)
  {
    assert NodeInv(g, s, m);
    match s.status[m]
    case Triggered => l := Begin(m);
    case Running => l := End(m);
    case Completing(k, ready) =>
      l := if k < |g.successors[m]| then Count(m) else if ready != [] then Fire(m) else Close(m);
  }

  /** While a node is unfinished, an acyclic graph always has a step to take. */
  lemma {:induction false} NeverStuck(g: Graph, s: Run, order: seq<int>, i: nat) returns (l: Label)
    requires Inv(g, s) && Topological(g.edges, order) && i < |order| && 0 <= order[i] < |s.status|
    requires s.status[order[i]] != Finished
    ensures Enabled(g, s, l)
    decreases i
  {
    var m := order[i];
    assert NodeInv(g, s, m);
    if s.status[m] != Waiting {
      l := ActiveNodeSteps(g, s, m);
    } else if g.indegree[m] == 0 {
      l := Kick;
    } else if s.remaining[m] == 0 {
      l := ActiveNodeSteps(g, s, s.owner[m]);
    } else {
      assert Preds(s.rest, m) != {};
      var q :| q in Preds(s.rest, m);
      PredsIn(s.rest, q, m);
      assert (q, order[i]) in g.edges && q in order[..i];
      var j :| 0 <= j < i && order[..i][j] == q;
      l := NeverStuck(g, s, order, j);
    }
  }

  function StatusWork(x: Status, degree: nat): int {
    match x
    case Waiting => 2 * degree + 4
    case Triggered => 2 * degree + 3
    case Running => 2 * degree + 2
    case Completing(k, ready) => 2 * (degree - k) + |ready| + 1
    case Finished => 0
  }

  function NodesWork(g: Graph, s: Run, n: nat): int
    requires n <= |s.status| == |g.successors|
  {
    if n == 0 then 0 else NodesWork(g, s, n - 1) + StatusWork(s.status[n - 1], |g.successors[n - 1]|)
  }

  function Work(g: Graph, s: Run): int
    requires Sized(g, s)
  {
    NodesWork(g, s, |s.status|) + |g.successors| - s.kicked
  }

  /** How the sum of all nodes' work follows changes in two of them. */
  lemma {:induction false} WorkChange(g: Graph, s: Run, s': Run, n: nat, a: nat, b: nat)
    requires n <= |s.status| == |s'.status| == |g.successors| && a < |s.status| && b < |s.status|
    requires forall v :: 0 <= v < |s.status| && v != a && v != b ==> s'.status[v] == s.status[v]
    ensures NodesWork(g, s', n) == NodesWork(g, s, n)
      + (if a < n then StatusWork(s'.status[a], |g.successors[a]|) - StatusWork(s.status[a], |g.successors[a]|) else 0)
      + (if b < n && b != a then StatusWork(s'.status[b], |g.successors[b]|) - StatusWork(s.status[b], |g.successors[b]|) else 0)
  {
    if n > 0 {
      WorkChange(g, s, s', n - 1, a, b);
    }
  }

  lemma StepShrinksWork(g: Graph, s: Run, l: Label)
    requires Inv(g, s) && Enabled(g, s, l)
    ensures Work(g, Next(g, s, l)) < Work(g, s)
  {
    var s' := Next(g, s, l);
    var a := if l.Kick? then s.kicked else l.v;
    var b := if l.Fire? then s.status[l.v].ready[0] else a;
    if l.Fire? {
      assert InReady(s, l.v, b);
    }
    assert NodeInv(g, s, a) && NodeInv(g, s, b);
    assert l.Fire? ==> b != a;
    WorkChange(g, s, s', |s.status|, a, b);
  }

  lemma {:induction false} WorkNonNegative(g: Graph, s: Run, n: nat)
    requires Inv(g, s) && n <= |s.status|
    ensures NodesWork(g, s, n) >= 0
  {
    if n > 0 {
      WorkNonNegative(g, s, n - 1);
      assert NodeInv(g, s, n - 1);
    }
  }

  /** Every run of an acyclic graph ends after boundedly many steps, and it can end only when every
      node has finished and the handle has settled. */
  lemma {:induction false} EveryRunCompletes(g: Graph, states: seq<Run>, labels: seq<Label>, k: nat, order: seq<int>)
    requires IsRun(g, states, labels) && k <= |labels|
    requires Topological(g.edges, order) && forall m :: 0 <= m < |g.successors| ==> m in order
    ensures Inv(g, states[k]) && |labels| - k <= Work(g, states[k])
    ensures var s := states[|labels|];
      Inv(g, s) && ((forall l :: !Enabled(g, s, l)) ==> s.remainingNodes == 0 && s.settles == 1)
    decreases |labels| - k
  {
    RunKeepsInv(g, states, labels, k);
    if k < |labels| {
      assert Step(g, states[k], labels[k], states[k + 1]);
      StepShrinksWork(g, states[k], labels[k]);
      EveryRunCompletes(g, states, labels, k + 1, order);
    } else {
      var s := states[k];
      WorkNonNegative(g, s, |s.status|);
      if s.remainingNodes != 0 {
        var m :| m in Unfinished(s);
        assert m in order;
        var i :| 0 <= i < |order| && order[i] == m;
        var l := NeverStuck(g, s, order, i);
      }
    }
  }
}
