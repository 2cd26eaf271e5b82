/** Binding a compiled graph's pipe links for one run (`bind_links_for_run`, src/static_task_graph.cpp).
    Objects the calling task already holds are lent: their links are left out and the rest are packed to
    the front of each node's range of the shared slab. */
module LendBinding {
  import opened Pipes

  /** A node's pipes as ascending positions in the graph's list of distinct pipes, with their modes. */
  datatype Node = Node(indices: seq<nat>, modes: seq<Mode>)

  /** A slab cell: the owning node, the pipe, the place in the node's cascade and the mode. */
  datatype Cell = Cell(owner: nat, pipe: nat, index: nat, mode: Mode)

  datatype Verdict = Ready | ReadHeldForWrite | ChildInFlight

  predicate NodeOk(node: Node, pipes: nat) {
    && |node.indices| == |node.modes|
    && (forall k :: 0 <= k < |node.indices| ==> node.indices[k] < pipes)
    && (forall j, k :: 0 <= j < k < |node.indices| ==> node.indices[j] < node.indices[k])
  }

  predicate Climbing(pipes: seq<nat>) {
    forall i, j :: 0 <= i < j < |pipes| ==> pipes[i] < pipes[j]
  }

  predicate NodesOk(nodes: seq<Node>, pipes: nat) {
    forall n :: 0 <= n < |nodes| ==> NodeOk(nodes[n], pipes)
  }

  /** Where a node's range of the slab starts. */
  function Offset(nodes: seq<Node>, n: nat): nat
    requires n <= |nodes|
  {
    if n == 0 then 0 else Offset(nodes, n - 1) + |nodes[n - 1].indices|
  }

  lemma {:induction false} OffsetGrows(nodes: seq<Node>, m: nat, n: nat)
    requires m < n <= |nodes|
    ensures Offset(nodes, m) + |nodes[m].indices| <= Offset(nodes, n)
    decreases n
  {
    if m < n - 1 {
      OffsetGrows(nodes, m, n - 1);
    }
  }

  /** The links of node `n` that stay when `lent` is lent, from its first `k` pipes. */
  function Packed(node: Node, n: nat, pipes: seq<nat>, lent: seq<bool>, k: nat): seq<Cell>
    requires NodeOk(node, |pipes|) && |lent| == |pipes| && k <= |node.indices|
  {
    if k == 0 then [] else
    var before := Packed(node, n, pipes, lent, k - 1);
    var i := node.indices[k - 1];
    if lent[i] then before else before + [Cell(n, pipes[i], |before|, node.modes[k - 1])]
  }

  function AllOf(node: Node, n: nat, pipes: seq<nat>, lent: seq<bool>): seq<Cell>
    requires NodeOk(node, |pipes|) && |lent| == |pipes|
  {
    Packed(node, n, pipes, lent, |node.indices|)
  }

  lemma {:induction false} PackedFits(node: Node, n: nat, pipes: seq<nat>, lent: seq<bool>, k: nat)
    requires NodeOk(node, |pipes|) && |lent| == |pipes| && k <= |node.indices|
    ensures |Packed(node, n, pipes, lent, k)| <= k
    decreases k
  {
    if k > 0 {
      PackedFits(node, n, pipes, lent, k - 1);
    }
  }

  /** What is packed is the node's own, not lent, and numbered from zero. */
  lemma {:induction false} PackedIsNumbered(node: Node, n: nat, pipes: seq<nat>, lent: seq<bool>, k: nat, i: nat)
    requires NodeOk(node, |pipes|) && |lent| == |pipes| && k <= |node.indices| && i < |Packed(node, n, pipes, lent, k)|
    ensures var c := Packed(node, n, pipes, lent, k)[i];
      c.owner == n && c.index == i && FromNode(node, pipes, lent, c, k)
    decreases k
  {
    var q, p := Packed(node, n, pipes, lent, k - 1), Packed(node, n, pipes, lent, k);
    if i < |q| {
      PackedIsNumbered(node, n, pipes, lent, k - 1, i);
      assert p[i] == q[i];
      var j :| 0 <= j < k - 1 && LinkOf(node, pipes, lent, q[i], j);
      assert LinkOf(node, pipes, lent, p[i], j);
    } else {
      assert LinkOf(node, pipes, lent, p[i], k - 1);
    }
  }

  /** No link that is not lent is missing. */
  lemma {:induction false} PackedHasAll(node: Node, n: nat, pipes: seq<nat>, lent: seq<bool>, k: nat, j: nat)
    requires NodeOk(node, |pipes|) && |lent| == |pipes| && j < k <= |node.indices| && !lent[node.indices[j]]
    ensures Has(Packed(node, n, pipes, lent, k), pipes[node.indices[j]], node.modes[j])
    decreases k
  {
    var q, p := Packed(node, n, pipes, lent, k - 1), Packed(node, n, pipes, lent, k);
    if j < k - 1 {
      PackedHasAll(node, n, pipes, lent, k - 1, j);
      var i :| 0 <= i < |q| && q[i].pipe == pipes[node.indices[j]] && q[i].mode == node.modes[j];
      assert p[i] == q[i];
    } else {
      assert p[|q|].pipe == pipes[node.indices[j]];
    }
  }

  /** The cascade's order: strictly ascending by pipe. */
  lemma {:induction false} PackedClimbs(node: Node, n: nat, pipes: seq<nat>, lent: seq<bool>, k: nat, i: nat, j: nat)
    requires NodeOk(node, |pipes|) && |lent| == |pipes| && k <= |node.indices| && Climbing(pipes)
    requires i < j < |Packed(node, n, pipes, lent, k)|
    ensures Packed(node, n, pipes, lent, k)[i].pipe < Packed(node, n, pipes, lent, k)[j].pipe
    decreases k
  {
    var q := Packed(node, n, pipes, lent, k - 1);
    if j < |q| {
      PackedClimbs(node, n, pipes, lent, k - 1, i, j);
    } else {
      PackedIsNumbered(node, n, pipes, lent, k - 1, i);
      var m :| 0 <= m < k - 1 && LinkOf(node, pipes, lent, q[i], m);
      assert node.indices[m] < node.indices[k - 1];
    }
  }

  /** The bound links are the node's canonical links minus the lent ones, numbered from zero and
      strictly ascending by pipe. */
  lemma PackedIsCanonicalMinusLent(node: Node, n: nat, pipes: seq<nat>, lent: seq<bool>)
    requires NodeOk(node, |pipes|) && |lent| == |pipes| && Climbing(pipes)
    ensures var p, k := AllOf(node, n, pipes, lent), |node.indices|;
      && (forall i :: 0 <= i < |p| ==> p[i].owner == n && p[i].index == i && FromNode(node, pipes, lent, p[i], k))
      && (forall i, j :: 0 <= i < j < |p| ==> p[i].pipe < p[j].pipe)
      && (forall j :: 0 <= j < k && !lent[node.indices[j]] ==> Has(p, pipes[node.indices[j]], node.modes[j]))
  {
    var p, k := AllOf(node, n, pipes, lent), |node.indices|;
    forall i | 0 <= i < |p| ensures p[i].owner == n && p[i].index == i && FromNode(node, pipes, lent, p[i], k) {
      PackedIsNumbered(node, n, pipes, lent, k, i);
    }
    forall i, j | 0 <= i < j < |p| ensures p[i].pipe < p[j].pipe {
      PackedClimbs(node, n, pipes, lent, k, i, j);
    }
    forall j | 0 <= j < k && !lent[node.indices[j]] ensures Has(p, pipes[node.indices[j]], node.modes[j]) {
      PackedHasAll(node, n, pipes, lent, k, j);
    }
  }

  /** The cell is one of the node's first `k` links, and not a lent one. */
  predicate FromNode(node: Node, pipes: seq<nat>, lent: seq<bool>, c: Cell, k: nat)
    requires NodeOk(node, |pipes|) && |lent| == |pipes| && k <= |node.indices|
  {
    exists j :: 0 <= j < k && LinkOf(node, pipes, lent, c, j)
  }

  predicate LinkOf(node: Node, pipes: seq<nat>, lent: seq<bool>, c: Cell, j: nat)
    requires NodeOk(node, |pipes|) && |lent| == |pipes| && j < |node.indices|
  {
    !lent[node.indices[j]] && c.pipe == pipes[node.indices[j]] && c.mode == node.modes[j]
  }

  predicate Has(p: seq<Cell>, pipe: nat, mode: Mode) {
    exists i :: 0 <= i < |p| && p[i].pipe == pipe && p[i].mode == mode
  }

  predicate Lends(held: Option<Mode>, need: Mode) {
    held.Some? && Covers(held.value, need)
  }

  /** The caller reads what this graph writes. */
  predicate Clashes(held: Option<Mode>, need: Mode) {
    held == Some(ReadOnly) && need == ReadWrite
  }

  predicate Any(lent: seq<bool>) {
    exists i :: 0 <= i < |lent| && lent[i]
  }

  predicate LentFor(held: seq<Option<Mode>>, needs: seq<Mode>, lent: seq<bool>) {
    |held| == |needs| == |lent| && forall i :: 0 <= i < |lent| ==> (lent[i] <==> Lends(held[i], needs[i]))
  }

  predicate SameOutside(a: seq<Cell>, b: seq<Cell>, lo: nat, hi: nat) {
    |a| == |b| && forall j :: 0 <= j < |a| && !(lo <= j < hi) ==> a[j] == b[j]
  }

  /** The slab's range of node `n` starts with its links minus the lent ones. */
  predicate BoundIn(nodes: seq<Node>, pipes: seq<nat>, lent: seq<bool>, slab: seq<Cell>, counts: seq<nat>, n: nat)
    requires n < |nodes| == |counts| && NodeOk(nodes[n], |pipes|) && |lent| == |pipes|
  {
    var o := Offset(nodes, n);
    o + counts[n] <= |slab| && slab[o..o + counts[n]] == AllOf(nodes[n], n, pipes, lent)
  }

  /** Writing node `n`'s range leaves the other nodes bound. */
  lemma OtherStaysBound(nodes: seq<Node>, pipes: seq<nat>, lent: seq<bool>, a: seq<Cell>, b: seq<Cell>,
                        counts: seq<nat>, counts': seq<nat>, n: nat, m: nat)
    requires n < |nodes| == |counts| == |counts'| && m < |nodes| && m != n && counts'[m] == counts[m]
    requires NodeOk(nodes[m], |pipes|) && |lent| == |pipes| && BoundIn(nodes, pipes, lent, a, counts, m)
    requires SameOutside(a, b, Offset(nodes, n), Offset(nodes, n) + |nodes[n].indices|)
    ensures BoundIn(nodes, pipes, lent, b, counts', m)
  {
    PackedFits(nodes[m], m, pipes, lent, |nodes[m].indices|);
    assert counts[m] == |AllOf(nodes[m], m, pipes, lent)|;
    RangesAreApart(nodes, n, m);
    SameSection(a, b, Offset(nodes, n), Offset(nodes, n) + |nodes[n].indices|, Offset(nodes, m), counts[m]);
  }

  lemma RangesAreApart(nodes: seq<Node>, n: nat, m: nat)
    requires n < |nodes| && m < |nodes| && m != n
    ensures Offset(nodes, m) + |nodes[m].indices| <= Offset(nodes, n) || Offset(nodes, n) + |nodes[n].indices| <= Offset(nodes, m)
  {
    if m < n {
      OffsetGrows(nodes, m, n);
    } else {
      OffsetGrows(nodes, n, m);
    }
  }

  lemma SameSection(a: seq<Cell>, b: seq<Cell>, lo: nat, hi: nat, o: nat, c: nat)
    requires SameOutside(a, b, lo, hi) && o + c <= |a| && (o + c <= lo || hi <= o)
    ensures a[o..o + c] == b[o..o + c]
  {
  }

  class Graph {
    const nodes: seq<Node>
    const pipes: seq<nat>
    const needs: seq<Mode>
    const slab: array<Cell>
    var counts: seq<nat>
    var lent: seq<bool>
    var linksLent: bool

    ghost predicate Shaped()
      reads `counts, `lent
    {
      && Climbing(pipes) && NodesOk(nodes, |pipes|) && |needs| == |lent| == |pipes|
      && slab.Length == Offset(nodes, |nodes|) && |counts| == |nodes|
    }

    ghost predicate Bound(n: nat)
      requires Shaped() && n < |nodes|
      reads `counts, `lent, slab
    {
      NodesOk(nodes, |pipes|) && BoundIn(nodes, pipes, lent, slab[..], counts, n)
    }

    /** Every node is bound to its canonical links minus what is lent. */
    ghost predicate Valid()
      reads this, slab
    {
      && Shaped()
      && (forall n :: 0 <= n < |nodes| ==> Bound(n))
      && (linksLent <==> Any(lent))
    }

    /** The binding made once at compilation: nothing lent. */
    constructor (nodes: seq<Node>, pipes: seq<nat>, needs: seq<Mode>)
      requires Climbing(pipes) && NodesOk(nodes, |pipes|) && |needs| == |pipes|
      ensures Valid() && fresh(slab) && !linksLent
      ensures this.nodes == nodes && this.pipes == pipes && this.needs == needs
    {
      this.nodes, this.pipes, this.needs := nodes, pipes, needs;
      slab := new Cell[Offset(nodes, |nodes|)](_ => Cell(0, 0, 0, ReadOnly));
      counts := seq(|nodes|, _ => 0);
      lent := seq(|pipes|, _ => false);
      linksLent := false;
      new;
      BindAll();
    }

    /** Writes node `n`'s packed links from `offset` on and nothing beyond its range. */
    method Pack(n: nat, offset: nat) returns (bound: nat)
      requires Shaped() && n < |nodes| && offset + |nodes[n].indices| <= slab.Length
      modifies slab
      ensures bound <= |nodes[n].indices| && slab[offset..offset + bound] == AllOf(nodes[n], n, pipes, lent)
      ensures SameOutside(old(slab[..]), slab[..], offset, offset + |nodes[n].indices|)
    {
      var node := nodes[n];
      bound := 0;
      for k := 0 to |node.indices|
        invariant bound <= k && slab[offset..offset + bound] == Packed(node, n, pipes, lent, k)
        invariant SameOutside(old(slab[..]), slab[..], offset, offset + |node.indices|)
      {
        var i := node.indices[k];
        if lent[i] {
          continue;
        }
        ghost var before := slab[offset..offset + bound];
        slab[offset + bound] := Cell(n, pipes[i], bound, node.modes[k]);
        bound := bound + 1;
        assert slab[offset..offset + bound - 1] == before;
        assert slab[offset..offset + bound] == before + [slab[offset + bound - 1]];
      }
    }

    /** Binds one node and leaves every other node as it was. */
    method BindNode(n: nat)
      requires Shaped() && n < |nodes|
      modifies `counts, slab
      ensures Shaped() && Bound(n)
      ensures forall m :: 0 <= m < |nodes| && m != n && old(Bound(m)) ==> Bound(m)
    {
      var offset := Offset(nodes, n);
      OffsetGrows(nodes, n, |nodes|);
      assert NodeOk(nodes[n], |pipes|);
      var bound := Pack(n, offset);
      counts := counts[n := bound];
      assert slab[..][offset..offset + bound] == slab[offset..offset + bound];
      forall m | 0 <= m < |nodes| && m != n && old(Bound(m)) ensures Bound(m) {
        OtherStaysBound(nodes, pipes, lent, old(slab[..]), slab[..], old(counts), counts, n, m);
      }
    }

    method BindAll()
      requires Shaped()
      modifies `counts, slab
      ensures Shaped() && forall n :: 0 <= n < |nodes| ==> Bound(n)
    {
      for n := 0 to |nodes|
        invariant Shaped() && forall m :: 0 <= m < n ==> Bound(m)
      {
        BindNode(n);
      }
    }

    /** Binds for one run.  `held` is what the calling task's grants cover of each pipe (nothing for a
        detached run); `settled` says whether its earlier nested runs have all settled.  Whatever the
        history of runs, and whether or not it returned early, every node ends up bound to exactly its
        links minus the ones lent for this run. */
    method BindForRun(held: seq<Option<Mode>>, settled: bool) returns (v: Verdict)
      requires Valid() && |held| == |pipes|
      modifies this, slab
      ensures v == ReadHeldForWrite <==> exists i :: 0 <= i < |held| && Clashes(held[i], needs[i])
      ensures v == ChildInFlight <==> v != ReadHeldForWrite && !settled && exists i :: 0 <= i < |held| && Lends(held[i], needs[i])
      ensures v == Ready ==> Valid() && LentFor(held, needs, lent) && (Any(lent) ==> settled)
    {
      var any := false;
      ghost var lent0 := lent;
      for i := 0 to |pipes|
        invariant Shaped() && counts == old(counts) && linksLent == old(linksLent) && slab[..] == old(slab[..])
        invariant forall j :: 0 <= j < i ==> !Clashes(held[j], needs[j]) && (lent[j] <==> Lends(held[j], needs[j]))
        invariant any <==> exists j :: 0 <= j < i && lent[j]
      {
        var lend := false;
        if held[i].Some? {
          if Covers(held[i].value, needs[i]) {
            lend := true;
          } else {
            return ReadHeldForWrite;
          }
        }
        lent := lent[i := lend];
        any := any || lend;
      }
      if any && !settled {
        return ChildInFlight;
      }
      if !any && !linksLent {
        assert lent == lent0;
        forall n | 0 <= n < |nodes| ensures Bound(n) {
          assert old(Bound(n));
        }
        return Ready;
      }
      BindAll();
      linksLent := any;
      return Ready;
    }
  }

  /** No bound link queues behind the caller's own grant: after a successful binding the lent pipes are
      exactly the ones the caller holds. */
  lemma NothingWaitsForTheCaller(held: seq<Option<Mode>>, needs: seq<Mode>, lent: seq<bool>, node: Node, n: nat, pipes: seq<nat>, i: nat)
    requires LentFor(held, needs, lent) && |pipes| == |needs| && NodeOk(node, |pipes|) && Climbing(pipes)
    requires forall j :: 0 <= j < |held| ==> !Clashes(held[j], needs[j])
    requires i < |held| && held[i].Some?
    ensures forall c :: c in AllOf(node, n, pipes, lent) ==> c.pipe != pipes[i]
  {
    PackedIsCanonicalMinusLent(node, n, pipes, lent);
    assert lent[i];
    forall c | c in AllOf(node, n, pipes, lent) ensures c.pipe != pipes[i] {
      var p := AllOf(node, n, pipes, lent);
      var k :| 0 <= k < |p| && p[k] == c;
      assert FromNode(node, pipes, lent, p[k], |node.indices|);
      var j :| 0 <= j < |node.indices| && LinkOf(node, pipes, lent, c, j);
      assert node.indices[j] != i;
    }
  }
}
