/** Building the task graph: conflict edges, successor lists and Kahn's cycle check, as
    `Static_task_graph::compile` and `detect_cycles` do it (src/static_task_graph.cpp). */
module GraphCompile {
  import opened Pipes
  import opened Walks

  /** A node as declared: the instances its body touches, each with its mode. */
  datatype NodeDecl = NodeDecl(access: seq<(int, Mode)>)

  datatype Compiled = Cyclic | Compiled(successors: seq<seq<int>>, indegree: seq<int>)

  ghost predicate Conflicting(a: NodeDecl, b: NodeDecl) {
    exists x, y :: x in a.access && y in b.access && x.0 == y.0 && (x.1 == ReadWrite || y.1 == ReadWrite)
  }

  /** The objects a node touches, and those of them it writes. */
  function Touched(a: NodeDecl): set<int> {
    set x | x in a.access :: x.0
  }

  function Written(a: NodeDecl): set<int> {
    set x | x in a.access && x.1 == ReadWrite :: x.0
  }

  /** Some object is written by one of the nodes and touched by the other.  Nodes that only read what they
      share are free of each other. */
  predicate WriteShared(a: NodeDecl, b: NodeDecl) {
    !(Written(a) !! Touched(b)) || !(Touched(a) !! Written(b))
  }

  lemma ConflictIsSharedWrite(a: NodeDecl, b: NodeDecl)
    ensures Conflicting(a, b) <==> WriteShared(a, b)
  {
    if x, y :| x in a.access && y in b.access && x.0 == y.0 && (x.1 == ReadWrite || y.1 == ReadWrite) {
      assert x.0 in Touched(a) && x.0 in Touched(b);
      assert x.0 in Written(a) || x.0 in Written(b);
    }
    if i :| i in Written(a) && i in Touched(b) {
      var x :| x in a.access && x.1 == ReadWrite && x.0 == i;
      var y :| y in b.access && y.0 == i;
    } else if i :| i in Touched(a) && i in Written(b) {
      var x :| x in a.access && x.0 == i;
      var y :| y in b.access && y.1 == ReadWrite && y.0 == i;
    }
  }

  method Conflicts(a: NodeDecl, b: NodeDecl) returns (r: bool)
    ensures r <==> Conflicting(a, b)
  {
    for i := 0 to |a.access|
      invariant forall k, y :: 0 <= k < i && y in b.access && a.access[k].0 == y.0 ==>
        a.access[k].1 == ReadOnly && y.1 == ReadOnly
    {
      for j := 0 to |b.access|
        invariant forall k :: 0 <= k < j && a.access[i].0 == b.access[k].0 ==>
          a.access[i].1 == ReadOnly && b.access[k].1 == ReadOnly
      {
        if a.access[i].0 == b.access[j].0 && (a.access[i].1 == ReadWrite || b.access[j].1 == ReadWrite) {
          assert a.access[i] in a.access && b.access[j] in b.access;
          return true;
        }
      }
    }
    return false;
  }

  /** The edge set a compiled graph must order: the explicit edges, and every conflicting pair in
      declaration order. */
  ghost predicate Wanted(decls: seq<NodeDecl>, explicit: seq<(int, int)>, e: (int, int)) {
    e in explicit || (0 <= e.0 < e.1 < |decls| && Conflicting(decls[e.0], decls[e.1]))
  }

  ghost predicate EdgesAre(g: Edges, decls: seq<NodeDecl>, explicit: seq<(int, int)>) {
    forall e: (int, int) :: e in g <==> Wanted(decls, explicit, e)
  }

  ghost function Preds(g: Edges, m: int): set<int> {
    set e | e in g && e.1 == m :: e.0
  }

  lemma PredsIn(g: Edges, q: int, m: int)
    ensures q in Preds(g, m) <==> (q, m) in g
  {
    if (q, m) in g {
      assert (q, m).1 == m;
    }
  }

  /** Successor lists name exactly the edges, ascending and without repetition. */
  ghost predicate SuccessorsOf(g: Edges, successors: seq<seq<int>>) {
    && Inner(g, |successors|)
    && (forall q, m :: 0 <= q < |successors| ==> (m in successors[q] <==> (q, m) in g))
    && (forall q, i, j :: 0 <= q < |successors| && 0 <= i < j < |successors[q]| ==> successors[q][i] < successors[q][j])
  }

  ghost predicate IndegreesOf(g: Edges, indegree: seq<int>) {
    forall m :: 0 <= m < |indegree| ==> indegree[m] == |Preds(g, m)|
  }

  // ---- Kahn's algorithm ---------------------------------------------------------------------------

  ghost predicate Inner(g: Edges, n: nat) {
    forall e :: e in g ==> 0 <= e.0 < n && 0 <= e.1 < n
  }

  /** Counting one edge down. */
  lemma RemoveEdge(rest: Edges, left: seq<int>, v: int, s: int)
    requires IndegreesOf(rest, left) && (v, s) in rest && 0 <= s < |left|
    ensures left[s] > 0 && IndegreesOf(rest - {(v, s)}, left[s := left[s] - 1])
  {
    var rest' := rest - {(v, s)};
    PredsIn(rest, v, s);
    forall m | 0 <= m < |left|
      ensures Preds(rest', m) == Preds(rest, m) - (if m == s then {v} else {})
    {
      forall q ensures q in Preds(rest', m) <==> q in Preds(rest, m) - (if m == s then {v} else {}) {
        PredsIn(rest, q, m);
        PredsIn(rest', q, m);
      }
    }
  }

  /** The queue and the visited order: different nodes, and exactly those with nothing left to wait for
      (`v` is the node being visited, if any). */
  ghost predicate Frontier(left: seq<int>, ready: seq<int>, order: seq<int>, v: set<int>) {
    && NoDup(ready)
    && (forall m :: m in ready ==> m !in order && m !in v)
    && (forall m :: m in order ==> m !in v)
    && (forall m :: m in ready || m in order || m in v <==> 0 <= m < |left| && left[m] == 0)
  }

  method DetectCycles(successors: seq<seq<int>>, indegree: seq<int>, ghost g: Edges) returns (ok: bool, ghost order: seq<int>)
    requires |indegree| == |successors| && SuccessorsOf(g, successors) && IndegreesOf(g, indegree)
    ensures ok <==> Acyclic(g)
    ensures ok ==> Topological(g, order) && forall m :: 0 <= m < |successors| ==> m in order
  {
    var n := |successors|;
    var left := new int[n](i requires 0 <= i < n => indegree[i]);
    var ready: seq<int> := [];
    order := [];
    ghost var rest := g;
    for i := 0 to n
      invariant left[..] == indegree
      invariant NoDup(ready)
      invariant forall m :: m in ready <==> 0 <= m < i && left[m] == 0
    {
      if left[i] == 0 {
        ready := ready + [i];
      }
    }
    var visited := 0;
    while ready != []
      invariant visited == |order|
      invariant IndegreesOf(rest, left[..]) && Frontier(left[..], ready, order, {})
      invariant forall e :: e in rest <==> e in g && e.0 !in order
      invariant Topological(g, order)
      decreases n - visited
    {
      var v := ready[0];
      assert v in ready && 0 <= v < n;
      VisitInOrder(g, rest, order, v, left[..]);
      NoDupBound(order + [v], Below(n));
      ready := PopFront(ready, left[..], order);
      visited := visited + 1;
      rest, ready := CountDown(left, successors[v], v, ready, rest, order);
      order := order + [v];
    }
    ok := visited == n;
    KahnDecides(g, rest, left[..], order);
  }

  /** Counts down the successors of `v`, queueing those that reach zero. */
  method CountDown(left: array<int>, succ: seq<int>, v: int, ready: seq<int>, ghost rest: Edges, ghost order: seq<int>)
    returns (ghost rest': Edges, ready': seq<int>)
    requires IndegreesOf(rest, left[..]) && Frontier(left[..], ready, order, {v})
    requires NoDup(succ) && forall m :: m in succ ==> 0 <= m < left.Length && (v, m) in rest
    modifies left
    ensures IndegreesOf(rest', left[..]) && Frontier(left[..], ready', order, {v})
    ensures forall e :: e in rest' <==> e in rest && !(e.0 == v && e.1 in succ)
  {
    rest', ready' := rest, ready;
    for k := 0 to |succ|
      invariant IndegreesOf(rest', left[..]) && Frontier(left[..], ready', order, {v})
      invariant forall e :: e in rest' <==> e in rest && !(e.0 == v && e.1 in succ[..k])
    {
      var s := succ[k];
      assert s in succ && s !in succ[..k];
      RemoveEdge(rest', left[..], v, s);
      CountOne(left[..], ready', order, v, s);
      ghost var before := left[..];
      left[s] := left[s] - 1;
      assert left[..] == before[s := before[s] - 1];
      rest' := rest' - {(v, s)};
      assert succ[..k + 1] == succ[..k] + [s];
      if left[s] == 0 {
        ready' := ready' + [s];
      }
    }
    assert succ[..|succ|] == succ;
  }

  lemma CountOne(left: seq<int>, ready: seq<int>, order: seq<int>, v: int, s: int)
    requires Frontier(left, ready, order, {v}) && 0 <= s < |left| && left[s] > 0
    ensures Frontier(left[s := left[s] - 1], if left[s] == 1 then ready + [s] else ready, order, {v})
  {
    var r := if left[s] == 1 then ready + [s] else ready;
    assert s !in ready && s !in order && s != v;
    assert forall m :: m in r <==> m in ready || (left[s] == 1 && m == s);
  }

  method PopFront(ready: seq<int>, ghost left: seq<int>, ghost order: seq<int>) returns (r: seq<int>)
    requires ready != [] && Frontier(left, ready, order, {})
    ensures r == ready[1..] && Frontier(left, r, order, {ready[0]})
  {
    r := ready[1..];
    assert forall m :: m in ready <==> m == ready[0] || m in r;
  }

  /** A node whose count reached zero has all its predecessors visited. */
  lemma VisitInOrder(g: Edges, rest: Edges, order: seq<int>, v: int, left: seq<int>)
    requires IndegreesOf(rest, left) && 0 <= v < |left| && left[v] == 0 && v !in order
    requires forall e :: e in rest <==> e in g && e.0 !in order
    requires Topological(g, order)
    ensures Topological(g, order + [v])
  {
    var o := order + [v];
    forall i, q | 0 <= i < |o| && (q, o[i]) in g ensures q in o[..i] {
      PredsIn(rest, q, v);
      assert Preds(rest, v) == {};
      assert o[..i] == order[..i];
      assert order[..|order|] == order;
    }
  }

  /** When the queue runs dry, either everything was visited in a topological order, or the nodes left
      over feed each other and contain a cycle. */
  lemma KahnDecides(g: Edges, rest: Edges, left: seq<int>, order: seq<int>)
    requires Inner(g, |left|) && IndegreesOf(rest, left) && Frontier(left, [], order, {}) && Topological(g, order)
    requires forall e :: e in rest <==> e in g && e.0 !in order
    ensures |order| == |left| <==> Acyclic(g)
    ensures |order| == |left| ==> forall m :: 0 <= m < |left| ==> m in order
  {
    NoDupBound(order, Below(|left|));
    if |order| == |left| {
      TopologicalIsAcyclic(g, order);
    } else {
      var r := set m | m in Below(|left|) && m !in order;
      var x :| x in Below(|left|) && x !in order;
      assert x in r;
      forall m | m in r ensures HasPredIn(g, r, m) {
        assert Preds(rest, m) != {};
        var q :| q in Preds(rest, m);
        PredsIn(rest, q, m);
        assert (q, m) in g && q in r;
      }
      var c := CycleInClosedSet(g, r, x);
    }
  }

  // ---- compile ---------------------------------------------------------------------------------------

  method CollectEdges(decls: seq<NodeDecl>, explicit: seq<(int, int)>) returns (edges: Edges)
    ensures EdgesAre(edges, decls, explicit)
  {
    edges := {};
    for i := 0 to |explicit|
      invariant forall e :: e in edges <==> e in explicit[..i]
    {
      edges := edges + {explicit[i]};
    }
    for i := 0 to |decls|
      invariant forall e: (int, int) :: e in edges <==>
        e in explicit || (0 <= e.0 < i && e.0 < e.1 < |decls| && Conflicting(decls[e.0], decls[e.1]))
    {
      for j := i + 1 to |decls|
        invariant forall e: (int, int) :: e in edges <==>
          || e in explicit
          || (0 <= e.0 < i && e.0 < e.1 < |decls| && Conflicting(decls[e.0], decls[e.1]))
          || (e.0 == i < e.1 < j && Conflicting(decls[i], decls[e.1]))
      {
        var c := Conflicts(decls[i], decls[j]);
        if c {
          edges := edges + {(i, j)};
        }
      }
    }
  }

  /** Recording one more edge in its source's successor list. */
  lemma AddSuccessor(seen: Edges, succ: seq<seq<int>>, i: int, j: int)
    requires SuccessorsOf(seen, succ) && 0 <= i < |succ| && 0 <= j < |succ| && forall m :: m in succ[i] ==> m < j
    ensures SuccessorsOf(seen + {(i, j)}, succ[i := succ[i] + [j]])
  {
    var t := succ[i] + [j];
    var succ' := succ[i := t];
    forall m ensures m in t <==> (i, m) in seen || m == j {
      assert m in t <==> m in succ[i] || m == j;
    }
    forall a, b | 0 <= a < b < |t| ensures t[a] < t[b] {
      assert a < |succ[i]| && succ[i][a] in succ[i];
    }
    forall q, m | 0 <= q < |succ| ensures m in succ'[q] <==> (q, m) in seen + {(i, j)} {
      assert m in succ[q] <==> (q, m) in seen;
    }
  }

  /** Recording one more edge in its target's indegree. */
  lemma AddIndegree(seen: Edges, deg: seq<int>, i: int, j: int)
    requires IndegreesOf(seen, deg) && 0 <= j < |deg| && (i, j) !in seen
    ensures IndegreesOf(seen + {(i, j)}, deg[j := deg[j] + 1])
  {
    PredsIn(seen, i, j);
    forall m | 0 <= m < |deg| ensures |Preds(seen + {(i, j)}, m)| == |Preds(seen, m)| + (if m == j then 1 else 0) {
      PredsAfterAdding(seen, i, j, m);
    }
  }

  lemma PredsAfterAdding(seen: Edges, i: int, j: int, m: int)
    ensures Preds(seen + {(i, j)}, m) == Preds(seen, m) + (if m == j then {i} else {})
  {
    var g := seen + {(i, j)};
    forall q ensures q in Preds(g, m) <==> q in Preds(seen, m) + (if m == j then {i} else {}) {
      PredsIn(g, q, m);
      PredsIn(seen, q, m);
    }
  }

  /** The successor lists and indegrees, filled in the ascending order a sorted set of pairs is walked
      in. */
  method FillNodes(n: nat, edges: Edges) returns (successors: seq<seq<int>>, indegree: seq<int>)
    requires Inner(edges, n)
    ensures |successors| == |indegree| == n && SuccessorsOf(edges, successors) && IndegreesOf(edges, indegree)
  {
    successors := seq(n, _ => []);
    indegree := seq(n, _ => 0);
    ghost var seen: Edges := {};
    for i := 0 to n
      invariant |successors| == |indegree| == n && SuccessorsOf(seen, successors) && IndegreesOf(seen, indegree)
      invariant forall e :: e in seen <==> e in edges && e.0 < i
    {
      for j := 0 to n
        invariant |successors| == |indegree| == n && SuccessorsOf(seen, successors) && IndegreesOf(seen, indegree)
        invariant forall e :: e in seen <==> e in edges && (e.0 < i || (e.0 == i && e.1 < j))
      {
        if (i, j) in edges {
          forall m | m in successors[i] ensures m < j {
            assert (i, m) in seen;
          }
          AddSuccessor(seen, successors, i, j);
          AddIndegree(seen, indegree, i, j);
          successors := successors[i := successors[i] + [j]];
          indegree := indegree[j := indegree[j] + 1];
          seen := seen + {(i, j)};
        }
      }
    }
    assert seen == edges;
  }

  /** Compiling succeeds exactly when the explicit and conflict edges together have no cycle. */
  method Compile(decls: seq<NodeDecl>, explicit: seq<(int, int)>) returns (r: Compiled, ghost g: Edges, ghost order: seq<int>)
    requires forall e :: e in explicit ==> 0 <= e.0 < |decls| && 0 <= e.1 < |decls|
    ensures EdgesAre(g, decls, explicit)
    ensures r.Compiled? <==> Acyclic(g)
    ensures r.Compiled? ==>
      && |r.successors| == |r.indegree| == |decls|
      && SuccessorsOf(g, r.successors) && IndegreesOf(g, r.indegree)
      && Topological(g, order) && (forall m :: 0 <= m < |decls| ==> m in order)
    ensures r.Compiled? ==> forall i, j :: 0 <= i < |decls| ==>
      (j in r.successors[i] <==> (i, j) in explicit || (i < j < |decls| && WriteShared(decls[i], decls[j])))
  {
    var edges := CollectEdges(decls, explicit);
    g := edges;
    forall e | e in edges ensures 0 <= e.0 < |decls| && 0 <= e.1 < |decls| {
      assert Wanted(decls, explicit, e);
    }
    var successors, indegree := FillNodes(|decls|, edges);
    var ok;
    ok, order := DetectCycles(successors, indegree, g);
    r := if ok then Compiled.Compiled(successors, indegree) else Cyclic;
    forall i, j | 0 <= i < |decls|
      ensures (i, j) in g <==> (i, j) in explicit || (i < j < |decls| && WriteShared(decls[i], decls[j]))
    {
      assert (i, j) in g <==> Wanted(decls, explicit, (i, j));
      if i < j < |decls| {
        ConflictIsSharedWrite(decls[i], decls[j]);
      }
    }
  }
}
