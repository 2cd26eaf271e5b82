/** The circular-wait registry of src/guarded.cpp: one edge per pipe a suspended task holds and pipe it
    awaits, searched to a bounded depth before every insertion. */
module WaitRegistry {
  import opened Pipes
  import opened Walks

  datatype WaitEdge = WaitEdge(held: int, awaited: int, ticket: nat, waiter: nat)

  /** The deepest recursion that still looks at edges. */
  const DEPTH_LIMIT := 64

  /** The longest chain the search follows, and the longest cycle it therefore rules out. */
  const REACH := 65
  const RULED_OUT := 66

  function Graph(edges: seq<WaitEdge>): Edges {
    set k | 0 <= k < |edges| :: (edges[k].held, edges[k].awaited)
  }

  predicate Joins(w: seq<int>, from: int, target: int) {
    |w| >= 1 && w[0] == from && w[|w| - 1] == target
  }

  /** A walk of at most `n` edges leads from `from` to `target`. */
  ghost predicate Reaches(g: Edges, from: int, target: int, n: nat) {
    exists w: seq<int> :: IsWalk(g, w) && Joins(w, from, target) && |w| - 1 <= n
  }

  ghost predicate NoCycleUpTo(g: Edges, n: nat) {
    forall w: seq<int> :: IsCycle(g, w) ==> |w| - 1 > n
  }

  /** What the registry guarantees of its edges. */
  ghost predicate Clean(edges: seq<WaitEdge>) {
    NoCycleUpTo(Graph(edges), RULED_OUT)
  }

  // ---- walks and one more edge ------------------------------------------------------------------

  lemma ReachesItself(g: Edges, x: int, n: nat)
    ensures Reaches(g, x, x, n)
  {
    assert IsWalk(g, [x]) && Joins([x], x, x);
  }

  lemma ReachesThrough(g: Edges, from: int, mid: int, target: int, n: nat)
    requires (from, mid) in g && Reaches(g, mid, target, n)
    ensures Reaches(g, from, target, n + 1)
  {
    var w: seq<int> :| IsWalk(g, w) && Joins(w, mid, target) && |w| - 1 <= n;
    JoinWalks(g, [from, mid], w);
    assert [from, mid] + w[1..] == [from] + w;
    assert Joins([from] + w, from, target);
  }

  /** A non-trivial walk starts with one of the edges. */
  lemma FirstEdge(edges: seq<WaitEdge>, from: int, target: int, n: nat) returns (k: nat)
    requires Reaches(Graph(edges), from, target, n) && from != target
    ensures n > 0 && k < |edges| && edges[k].held == from && Reaches(Graph(edges), edges[k].awaited, target, n - 1)
  {
    var g := Graph(edges);
    var w: seq<int> :| IsWalk(g, w) && Joins(w, from, target) && |w| - 1 <= n;
    assert (w[0], w[1]) in g;
    k :| 0 <= k < |edges| && (edges[k].held, edges[k].awaited) == (w[0], w[1]);
    SubWalk(g, w, 1, |w| - 1);
    var u := w[1..|w| - 1 + 1];
    assert IsWalk(g, u) && Joins(u, w[1], target);
  }

  /** A walk that may use the edge `(h, a)` and ends in `h` has a beginning that ends in `h` without it. */
  lemma {:induction false} BeforeTheEdge(g: Edges, h: int, a: int, r: seq<int>) returns (u: seq<int>)
    requires IsWalk(g + {(h, a)}, r) && r[|r| - 1] == h
    ensures IsWalk(g, u) && u[0] == r[0] && u[|u| - 1] == h && |u| <= |r|
    decreases |r|
  {
    if k :| 0 <= k < |r| - 1 && (r[k], r[k + 1]) == (h, a) {
      SubWalk(g + {(h, a)}, r, 0, k);
      assert r[0..k + 1] == r[..k + 1];
      u := BeforeTheEdge(g, h, a, r[..k + 1]);
    } else {
      u := r;
    }
  }

  /** Cutting a cycle at one of its edges leaves a walk back, one edge shorter. */
  lemma OpenCycle(g: Edges, w: seq<int>, k: nat) returns (r: seq<int>)
    requires IsCycle(g, w) && k < |w| - 1
    ensures IsWalk(g, r) && Joins(r, w[k + 1], w[k]) && |r| == |w| - 1
  {
    var u, v := w[k + 1..|w| - 1 + 1], w[0..k + 1];
    SubWalk(g, w, k + 1, |w| - 1);
    SubWalk(g, w, 0, k);
    JoinWalks(g, u, v);
    r := u + v[1..];
    assert r[0] == w[k + 1];
    assert r[|r| - 1] == w[k];
  }

  /** One more edge keeps short cycles out exactly when the search for its way back finds nothing. */
  lemma EdgeCloses(g: Edges, h: int, a: int, n: nat)
    requires NoCycleUpTo(g, n + 1)
    ensures NoCycleUpTo(g + {(h, a)}, n + 1) <==> !Reaches(g, a, h, n)
  {
    var g' := g + {(h, a)};
    if Reaches(g, a, h, n) {
      var w: seq<int> :| IsWalk(g, w) && Joins(w, a, h) && |w| - 1 <= n;
      WalkInLarger(g, g', w);
      JoinWalks(g', w, [h, a]);
      var c := w + [h, a][1..];
      assert IsCycle(g', c);
    } else {
      forall w: seq<int> | IsCycle(g', w) ensures |w| - 1 > n + 1 {
        if |w| - 1 <= n + 1 {
          CycleUses(g, h, a, w, n);
        }
      }
    }
  }

  lemma CycleUses(g: Edges, h: int, a: int, w: seq<int>, n: nat)
    requires IsCycle(g + {(h, a)}, w) && |w| - 1 <= n + 1
    ensures IsCycle(g, w) || Reaches(g, a, h, n)
  {
    if k :| 0 <= k < |w| - 1 && (w[k], w[k + 1]) == (h, a) {
      var r := OpenCycle(g + {(h, a)}, w, k);
      var u := BeforeTheEdge(g, h, a, r);
      assert Joins(u, a, h);
    } else {
      forall k | 0 <= k < |w| - 1 ensures (w[k], w[k + 1]) in g {
        assert (w[k], w[k + 1]) in g + {(h, a)};
      }
    }
  }

  lemma SmallerGraph(g: Edges, g': Edges, n: nat)
    requires g <= g' && NoCycleUpTo(g', n)
    ensures NoCycleUpTo(g, n)
  {
    forall w: seq<int> | IsCycle(g, w) ensures |w| - 1 > n {
      WalkInLarger(g, g', w);
      assert IsCycle(g', w);
    }
  }

  lemma GraphOfMore(edges: seq<WaitEdge>, e: WaitEdge)
    ensures Graph(edges + [e]) == Graph(edges) + {(e.held, e.awaited)}
  {
    var more := edges + [e];
    assert more[|edges|] == e;
    assert forall k :: 0 <= k < |edges| ==> more[k] == edges[k];
    forall x | x in Graph(edges) + {(e.held, e.awaited)} ensures x in Graph(more) {
      if x in Graph(edges) {
        var k :| 0 <= k < |edges| && x == (edges[k].held, edges[k].awaited);
        assert x == (more[k].held, more[k].awaited);
      } else {
        assert x == (more[|edges|].held, more[|edges|].awaited);
      }
    }
  }

  lemma GraphMonotone(few: seq<WaitEdge>, many: seq<WaitEdge>)
    requires forall e :: e in few ==> e in many
    ensures Graph(few) <= Graph(many)
  {
    forall x | x in Graph(few) ensures x in Graph(many) {
      var k :| 0 <= k < |few| && x == (few[k].held, few[k].awaited);
      assert few[k] in few;
      var j :| 0 <= j < |many| && many[j] == few[k];
    }
  }

  // ---- what one call records --------------------------------------------------------------------

  /** The edges from one held pipe to those of the first `j` awaited pipes that are there. */
  function Row(h: int, awaited: seq<Option<int>>, ticket: nat, waiter: nat, j: nat): seq<WaitEdge>
    requires j <= |awaited|
  {
    if j == 0 then [] else
    var last := if awaited[j - 1].Some? then [WaitEdge(h, awaited[j - 1].value, ticket, waiter)] else [];
    Row(h, awaited, ticket, waiter, j - 1) + last
  }

  /** The edges from each of the first `i` held pipes. */
  function Pairs(held: seq<int>, awaited: seq<Option<int>>, ticket: nat, waiter: nat, i: nat): seq<WaitEdge>
    requires i <= |held|
  {
    if i == 0 then [] else
    Pairs(held, awaited, ticket, waiter, i - 1) + Row(held[i - 1], awaited, ticket, waiter, |awaited|)
  }

  lemma {:induction false} RowHolds(h: int, awaited: seq<Option<int>>, ticket: nat, waiter: nat, j: nat, e: WaitEdge)
    requires j <= |awaited|
    ensures e in Row(h, awaited, ticket, waiter, j) <==>
      e.held == h && Some(e.awaited) in awaited[..j] && e.ticket == ticket && e.waiter == waiter
    decreases j
  {
    if j > 0 {
      RowHolds(h, awaited, ticket, waiter, j - 1, e);
      assert awaited[..j] == awaited[..j - 1] + [awaited[j - 1]];
    }
  }

  lemma {:induction false} PairsUpTo(held: seq<int>, awaited: seq<Option<int>>, ticket: nat, waiter: nat, i: nat, e: WaitEdge)
    requires i <= |held|
    ensures e in Pairs(held, awaited, ticket, waiter, i) <==>
      e.held in held[..i] && Some(e.awaited) in awaited && e.ticket == ticket && e.waiter == waiter
    decreases i
  {
    if i > 0 {
      PairsUpTo(held, awaited, ticket, waiter, i - 1, e);
      RowHolds(held[i - 1], awaited, ticket, waiter, |awaited|, e);
      assert awaited[..|awaited|] == awaited;
      assert held[..i] == held[..i - 1] + [held[i - 1]];
    }
  }

  /** What a call records: one edge from every pipe held to every awaited pipe that is there, in the caller's
      name, and no other. */
  lemma PairsAreAllPairs(held: seq<int>, awaited: seq<Option<int>>, ticket: nat, waiter: nat, e: WaitEdge)
    ensures e in Pairs(held, awaited, ticket, waiter, |held|) <==>
      e.held in held && Some(e.awaited) in awaited && e.ticket == ticket && e.waiter == waiter
  {
    PairsUpTo(held, awaited, ticket, waiter, |held|, e);
    assert held[..|held|] == held;
  }

  lemma EdgeOf(edges: seq<WaitEdge>, e: WaitEdge)
    requires e in edges
    ensures (e.held, e.awaited) in Graph(edges)
  {
    var k :| 0 <= k < |edges| && edges[k] == e;
  }

  lemma PairIsRecorded(held: seq<int>, awaited: seq<Option<int>>, ticket: nat, waiter: nat, h: int, a: int)
    requires h in held && Some(a) in awaited
    ensures (h, a) in Graph(Pairs(held, awaited, ticket, waiter, |held|))
  {
    var e := WaitEdge(h, a, ticket, waiter);
    PairsAreAllPairs(held, awaited, ticket, waiter, e);
    EdgeOf(Pairs(held, awaited, ticket, waiter, |held|), e);
  }

  /** Two tasks that each hold what the other awaits are a cycle, whatever else is recorded. */
  lemma MutualWaitIsCircular(edges: seq<WaitEdge>, a: int, b: int)
    requires (a, b) in Graph(edges) && (b, a) in Graph(edges)
    ensures !Clean(edges)
  {
    assert IsCycle(Graph(edges), [a, b, a]);
  }

  lemma CycleEnds(g: Edges, w: seq<int>)
    requires IsCycle(g, w)
    ensures (w[0], w[1]) in g && (w[|w| - 2], w[0]) in g
  {
    assert (w[|w| - 2], w[|w| - 2 + 1]) in g;
  }

  /** With nothing else recorded, one suspension is a cycle exactly when it awaits a pipe it holds. */
  lemma OneWaitIsCircular(held: seq<int>, awaited: seq<Option<int>>, ticket: nat, waiter: nat)
    ensures Clean(Pairs(held, awaited, ticket, waiter, |held|)) <==> forall h :: h in held ==> Some(h) !in awaited
  {
    var edges := Pairs(held, awaited, ticket, waiter, |held|);
    var g := Graph(edges);
    if h :| h in held && Some(h) in awaited {
      PairIsRecorded(held, awaited, ticket, waiter, h, h);
      assert IsCycle(g, [h, h]);
    }
    if forall h :: h in held ==> Some(h) !in awaited {
      forall x, y | (x, y) in g ensures x in held && Some(y) in awaited {
        var k :| 0 <= k < |edges| && (edges[k].held, edges[k].awaited) == (x, y);
        PairsAreAllPairs(held, awaited, ticket, waiter, edges[k]);
      }
      forall w: seq<int> ensures !IsCycle(g, w) {
        if IsCycle(g, w) {
          CycleEnds(g, w);
          assert false;
        }
      }
    }
  }

  /** A recorded call is one that leaves no short cycle; with few enough pipes, none at all. */
  lemma FewPipesNoCycle(edges: seq<WaitEdge>, pipes: set<int>)
    requires forall k :: 0 <= k < |edges| ==> edges[k].held in pipes && edges[k].awaited in pipes
    requires |pipes| <= 66
    ensures Clean(edges) <==> Acyclic(Graph(edges))
  {
    var g := Graph(edges);
    if Clean(edges) {
      forall w: seq<int> ensures !IsCycle(g, w) {
        if IsCycle(g, w) {
          forall k | 0 <= k < |w| ensures w[k] in pipes {
            var e := if k < |w| - 1 then (w[k], w[k + 1]) else (w[k - 1], w[k]);
            assert e in g;
          }
          var c := ShortCycle(g, w, pipes);
          assert false;
        }
      }
    }
  }

  /** The registry; all methods run under its mutex. */
  class Registry {
    var edges: seq<WaitEdge>

    ghost predicate Valid()
      reads this
    {
      Clean(edges)
    }

    constructor ()
      ensures Valid() && edges == []
    {
      edges := [];
      new;
      forall w: seq<int> ensures !IsCycle(Graph(edges), w) {
        assert |w| >= 2 ==> (w[0], w[1]) !in Graph(edges);
      }
    }

    /** The depth-bounded search: exact for chains of as many edges as the depth left allows. */
    method WaitReaches(from: int, target: int, depth: nat) returns (r: bool)
      requires depth <= REACH
      ensures r <==> Reaches(Graph(edges), from, target, REACH - depth)
      decreases REACH - depth
    {
      ghost var g := Graph(edges);
      if from == target {
        ReachesItself(g, from, REACH - depth);
        return true;
      }
      if depth > DEPTH_LIMIT {
        if Reaches(g, from, target, 0) {
          var k := FirstEdge(edges, from, target, 0);
        }
        return false;
      }
      for i := 0 to |edges|
        invariant forall k :: 0 <= k < i && edges[k].held == from ==>
          !Reaches(g, edges[k].awaited, target, REACH - depth - 1)
      {
        if edges[i].held == from {
          var found := WaitReaches(edges[i].awaited, target, depth + 1);
          if found {
            assert (from, edges[i].awaited) in g;
            ReachesThrough(g, from, edges[i].awaited, target, REACH - depth - 1);
            return true;
          }
        }
      }
      if Reaches(g, from, target, REACH - depth) {
        var k := FirstEdge(edges, from, target, REACH - depth);
      }
      return false;
    }

    /** One edge, unless it would close a cycle. */
    method RecordEdge(e: WaitEdge) returns (closing: bool)
      requires Valid()
      modifies this
      ensures Valid()
      ensures closing <==> !Clean(old(edges) + [e])
      ensures edges == if closing then old(edges) else old(edges) + [e]
    {
      EdgeCloses(Graph(edges), e.held, e.awaited, REACH);
      GraphOfMore(edges, e);
      closing := WaitReaches(e.awaited, e.held, 0);
      if !closing {
        edges := edges + [e];
      }
    }

    /** One held pipe against the `j`th awaited pipe, which may be null; `bad` is a beginning of the full
        list with a cycle in it. */
    method RecordAwaited(h: int, awaited: seq<Option<int>>, ticket: nat, waiter: nat, j: nat, ghost base: seq<WaitEdge>)
      returns (closing: bool, ghost bad: seq<WaitEdge>)
      requires Valid() && j < |awaited| && edges == base + Row(h, awaited, ticket, waiter, j)
      modifies this
      ensures Valid()
      ensures !closing ==> edges == base + Row(h, awaited, ticket, waiter, j + 1)
      ensures closing ==> bad <= base + Row(h, awaited, ticket, waiter, |awaited|) && !Clean(bad)
    {
      closing, bad := false, [];
      if awaited[j].Some? {
        var e := WaitEdge(h, awaited[j].value, ticket, waiter);
        bad := edges + [e];
        assert bad == base + Row(h, awaited, ticket, waiter, j + 1);
        RowPrefix(h, awaited, ticket, waiter, j + 1, |awaited|);
        closing := RecordEdge(e);
      }
    }

    /** One held pipe against every awaited pipe. */
    method RecordRow(h: int, awaited: seq<Option<int>>, ticket: nat, waiter: nat)
      returns (r: Option<bool>, ghost bad: seq<WaitEdge>)
      requires Valid()
      modifies this
      ensures Valid()
      ensures var more := Row(h, awaited, ticket, waiter, |awaited|);
        if r.Some? then edges == old(edges) + more && (r.value <==> |more| > 0)
        else bad <= old(edges) + more && !Clean(bad)
    {
      bad := [];
      var recorded := false;
      for j := 0 to |awaited|
        invariant Valid()
        invariant edges == old(edges) + Row(h, awaited, ticket, waiter, j)
        invariant recorded <==> |Row(h, awaited, ticket, waiter, j)| > 0
      {
        var closing;
        closing, bad := RecordAwaited(h, awaited, ticket, waiter, j, old(edges));
        if closing {
          return None, bad;
        }
        recorded := recorded || awaited[j].Some?;
      }
      r := Some(recorded);
    }

    /** The `i`th held pipe; `recorded` is whether anything was recorded so far. */
    method RecordHeld(held: seq<int>, awaited: seq<Option<int>>, ticket: nat, waiter: nat, i: nat, recorded: bool, ghost base: seq<WaitEdge>)
      returns (r: Option<bool>, ghost bad: seq<WaitEdge>)
      requires Valid() && i < |held| && edges == base + Pairs(held, awaited, ticket, waiter, i)
      requires recorded <==> |Pairs(held, awaited, ticket, waiter, i)| > 0
      modifies this
      ensures Valid()
      ensures if r.Some? then
          edges == base + Pairs(held, awaited, ticket, waiter, i + 1)
          && (r.value <==> |Pairs(held, awaited, ticket, waiter, i + 1)| > 0)
        else bad <= base + Pairs(held, awaited, ticket, waiter, |held|) && !Clean(bad)
    {
      ghost var next := base + Pairs(held, awaited, ticket, waiter, i + 1);
      assert edges + Row(held[i], awaited, ticket, waiter, |awaited|) == next;
      PairsPrefix(held, awaited, ticket, waiter, i + 1, |held|);
      r, bad := RecordRow(held[i], awaited, ticket, waiter);
      if r.Some? {
        r := Some(recorded || r.value);
      }
    }

    method RecordAll(held: seq<int>, awaited: seq<Option<int>>, ticket: nat, waiter: nat)
      returns (r: Option<bool>, ghost bad: seq<WaitEdge>)
      requires Valid()
      modifies this
      ensures Valid()
      ensures var more := Pairs(held, awaited, ticket, waiter, |held|);
        if r.Some? then edges == old(edges) + more && (r.value <==> |more| > 0)
        else bad <= old(edges) + more && !Clean(bad)
    {
      bad := [];
      var recorded := false;
      for i := 0 to |held|
        invariant Valid()
        invariant edges == old(edges) + Pairs(held, awaited, ticket, waiter, i)
        invariant recorded <==> |Pairs(held, awaited, ticket, waiter, i)| > 0
      {
        var row;
        row, bad := RecordHeld(held, awaited, ticket, waiter, i, recorded, old(edges));
        if row.None? {
          return None, bad;
        }
        recorded := row.value;
      }
      r := Some(recorded);
    }

    /** Records that a task holding `held` suspends on `awaited`; null awaited pipes are passed over.
        `None` is the fatal report of a circular wait.  It is made exactly when the complete set of
        edges would contain a cycle of at most 66 edges. */
    method Record(held: Option<seq<int>>, awaited: seq<Option<int>>, ticket: nat, waiter: nat)
      returns (r: Option<bool>)
      requires Valid()
      modifies this
      ensures Valid()
      ensures var more := if held.Some? then Pairs(held.value, awaited, ticket, waiter, |held.value|) else [];
        && (r.Some? <==> Clean(old(edges) + more))
        && (r.Some? ==> edges == old(edges) + more && (r.value <==> |more| > 0))
    {
      if held.None? || |awaited| == 0 {
        if held.Some? {
          NoPairs(held.value, ticket, waiter, |held.value|);
        }
        assert old(edges) + [] == old(edges);
        return Some(false);
      }
      ghost var bad;
      r, bad := RecordAll(held.value, awaited, ticket, waiter);
      if r.None? {
        CycleStays(bad, old(edges) + Pairs(held.value, awaited, ticket, waiter, |held.value|));
      }
    }

    /** Drops everything the ticket's holder recorded, and nothing else. */
    method Clear(ticket: nat)
      requires Valid()
      modifies this
      ensures Valid()
      ensures forall e :: e in edges <==> e in old(edges) && e.ticket != ticket
    {
      var kept: seq<WaitEdge> := [];
      for i := 0 to |edges|
        invariant edges == old(edges)
        invariant forall e :: e in kept <==> e in edges[..i] && e.ticket != ticket
      {
        if edges[i].ticket != ticket {
          kept := kept + [edges[i]];
        }
      }
      assert edges[..|edges|] == edges;
      GraphMonotone(kept, edges);
      SmallerGraph(Graph(kept), Graph(edges), RULED_OUT);
      edges := kept;
    }
  }

  /** The suspended ABBA deadlock: from any registry, when a task that holds `a` has been let suspend on
      `b`, the task that holds `b` and suspends on `a` is reported. */
  method AbbaIsReported(registry: Registry, held: seq<int>, awaited: seq<Option<int>>, held': seq<int>, awaited': seq<Option<int>>,
                        a: int, b: int, ticket: nat, waiter: nat, ticket': nat, waiter': nat)
    returns (first: Option<bool>, second: Option<bool>)
    requires registry.Valid() && a in held && Some(b) in awaited && b in held' && Some(a) in awaited'
    modifies registry
    ensures first != Some(false) && second == None
    ensures first == None <== a == b
    ensures first == None <==> !Clean(old(registry.edges) + Pairs(held, awaited, ticket, waiter, |held|))
  {
    ghost var before := registry.edges;
    ghost var more := Pairs(held, awaited, ticket, waiter, |held|);
    PairIsRecorded(held, awaited, ticket, waiter, a, b);
    PairIsRecorded(held', awaited', ticket', waiter', b, a);
    GraphMonotone(more, before + more);
    if a == b {
      MutualWaitIsCircular(before + more, a, b);
    }
    first := registry.Record(Some(held), awaited, ticket, waiter);
    second := None;
    if first.Some? {
      ghost var more' := Pairs(held', awaited', ticket', waiter', |held'|);
      ghost var all := registry.edges + more';
      GraphMonotone(registry.edges, all);
      GraphMonotone(more', all);
      MutualWaitIsCircular(all, a, b);
      second := registry.Record(Some(held'), awaited', ticket', waiter');
    }
  }

  lemma {:induction false} NoPairs(held: seq<int>, ticket: nat, waiter: nat, i: nat)
    requires i <= |held|
    ensures Pairs(held, [], ticket, waiter, i) == []
    decreases i
  {
    if i > 0 {
      NoPairs(held, ticket, waiter, i - 1);
    }
  }

  lemma {:induction false} PairsPrefix(held: seq<int>, awaited: seq<Option<int>>, ticket: nat, waiter: nat, i: nat, n: nat)
    requires i <= n <= |held|
    ensures Pairs(held, awaited, ticket, waiter, i) <= Pairs(held, awaited, ticket, waiter, n)
    decreases n
  {
    if i < n {
      PairsPrefix(held, awaited, ticket, waiter, i, n - 1);
    }
  }

  lemma {:induction false} RowPrefix(h: int, awaited: seq<Option<int>>, ticket: nat, waiter: nat, j: nat, n: nat)
    requires j <= n <= |awaited|
    ensures Row(h, awaited, ticket, waiter, j) <= Row(h, awaited, ticket, waiter, n)
    decreases n
  {
    if j < n {
      RowPrefix(h, awaited, ticket, waiter, j, n - 1);
    }
  }

  /** A short cycle does not go away when edges are added. */
  lemma CycleStays(few: seq<WaitEdge>, many: seq<WaitEdge>)
    requires few <= many
    ensures Clean(many) ==> Clean(few)
  {
    GraphMonotone(few, many);
    if Clean(many) {
      SmallerGraph(Graph(few), Graph(many), RULED_OUT);
    }
  }

  // ---- the bound is real --------------------------------------------------------------------------

  /** The chain 0 -> 1 -> .. -> n. */
  ghost function Chain(n: nat): Edges {
    set k | k in Below(n) :: (k, k + 1)
  }

  lemma ChainCounts(n: nat, w: seq<int>)
    requires IsWalk(Chain(n), w)
    ensures forall k :: 0 <= k < |w| ==> w[k] == w[0] + k
  {
    for j := 1 to |w|
      invariant forall k :: 0 <= k < j ==> w[k] == w[0] + k
    {
      assert (w[j - 1], w[j - 1 + 1]) in Chain(n);
    }
  }

  /** Past 66 pipes the search misses a cycle: closing the ring of 67 is not reported. */
  lemma LongRingIsMissed()
    ensures NoCycleUpTo(Chain(66), RULED_OUT) && !Reaches(Chain(66), 0, 66, REACH)
    ensures !Acyclic(Chain(66) + {(66, 0)})
  {
    var g := Chain(66);
    forall w: seq<int> | IsWalk(g, w) ensures w[|w| - 1] == w[0] + |w| - 1 {
      ChainCounts(66, w);
    }
    var ring := seq(68, k => if k == 67 then 0 else k);
    var g' := g + {(66, 0)};
    forall k | 0 <= k < |ring| - 1 ensures (ring[k], ring[k + 1]) in g' {
      if k < 66 {
        assert k in Below(66);
      }
    }
    assert IsCycle(g', ring);
  }
}
