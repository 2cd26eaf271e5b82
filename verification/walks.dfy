/** Walks and cycles of a finite directed graph, shared by the task graph's cycle check and the
    waits-for registry. */
module Walks {

  type Edges = set<(int, int)>

  predicate IsWalk(g: Edges, w: seq<int>) {
    |w| >= 1 && forall k :: 0 <= k < |w| - 1 ==> (w[k], w[k + 1]) in g
  }

  /** A closed walk; its length in edges is `|w| - 1`, at least one. */
  predicate IsCycle(g: Edges, w: seq<int>) {
    |w| >= 2 && IsWalk(g, w) && w[0] == w[|w| - 1]
  }

  ghost predicate Acyclic(g: Edges) {
    forall w: seq<int> :: !IsCycle(g, w)
  }

  predicate Within(w: seq<int>, v: set<int>) {
    forall k :: 0 <= k < |w| ==> w[k] in v
  }

  lemma {:induction false} Pigeonhole(w: seq<int>, v: set<int>) returns (i: nat, j: nat)
    requires Within(w, v) && |w| > |v|
    ensures i < j < |w| && w[i] == w[j]
    decreases |w|
  {
    var x := w[0];
    if k :| 1 <= k < |w| && w[k] == x {
      i, j := 0, k;
    } else {
      assert x in v;
      assert forall k :: 0 <= k < |w[1..]| ==> w[1..][k] == w[k + 1] != x;
      i, j := Pigeonhole(w[1..], v - {x});
      i, j := i + 1, j + 1;
    }
  }

  lemma SubWalk(g: Edges, w: seq<int>, i: nat, j: nat)
    requires IsWalk(g, w) && i <= j < |w|
    ensures IsWalk(g, w[i..j + 1])
  {
    var u := w[i..j + 1];
    forall k | 0 <= k < |u| - 1 ensures (u[k], u[k + 1]) in g {
      assert u[k] == w[i + k] && u[k + 1] == w[i + k + 1];
    }
  }

  lemma JoinWalks(g: Edges, u: seq<int>, w: seq<int>)
    requires IsWalk(g, u) && IsWalk(g, w) && u[|u| - 1] == w[0]
    ensures IsWalk(g, u + w[1..]) && (u + w[1..])[0] == u[0] && (u + w[1..])[|u| + |w| - 2] == w[|w| - 1]
  {
    var z := u + w[1..];
    forall k | 0 <= k < |z| - 1 ensures (z[k], z[k + 1]) in g {
      if k < |u| - 1 {
        assert (u[k], u[k + 1]) in g;
      } else {
        assert z[k] == w[k + 1 - |u|] && z[k + 1] == w[k + 2 - |u|];
      }
    }
  }

  lemma WalkInLarger(g: Edges, g': Edges, w: seq<int>)
    requires IsWalk(g, w) && g <= g'
    ensures IsWalk(g', w)
  {
    forall k | 0 <= k < |w| - 1 ensures (w[k], w[k + 1]) in g' {
      assert (w[k], w[k + 1]) in g;
    }
  }

  /** Any cycle can be cut down to one with no more edges than there are vertices. */
  lemma {:induction false} ShortCycle(g: Edges, w: seq<int>, v: set<int>) returns (c: seq<int>)
    requires IsCycle(g, w) && Within(w, v)
    ensures IsCycle(g, c) && Within(c, v) && |c| - 1 <= |v|
    decreases |w|
  {
    if |w| - 1 <= |v| {
      c := w;
    } else {
      var i, j := Pigeonhole(w[..|w| - 1], v);
      SubWalk(g, w, i, j);
      var u := w[i..j + 1];
      assert u[0] == w[i] && u[|u| - 1] == w[j];
      c := ShortCycle(g, u, v);
    }
  }

  predicate HasPredIn(g: Edges, r: set<int>, m: int) {
    exists q :: q in r && (q, m) in g
  }

  /** A non-empty set in which every vertex has a predecessor contains a cycle. */
  lemma CycleInClosedSet(g: Edges, r: set<int>, x: int) returns (c: seq<int>)
    requires x in r && forall m :: m in r ==> HasPredIn(g, r, m)
    ensures IsCycle(g, c)
  {
    var w := [x];
    while |w| <= |r|
      invariant IsWalk(g, w) && Within(w, r)
      decreases |r| - |w|
    {
      assert HasPredIn(g, r, w[0]);
      var q :| q in r && (q, w[0]) in g;
      JoinWalks(g, [q, w[0]], w);
      assert [q, w[0]] + w[1..] == [q] + w;
      w := [q] + w;
    }
    var i, j := Pigeonhole(w, r);
    SubWalk(g, w, i, j);
    c := w[i..j + 1];
    assert c[0] == w[i] && c[|c| - 1] == w[j];
  }

  predicate NoDup(s: seq<int>) {
    forall i, j :: 0 <= i < j < |s| ==> s[i] != s[j]
  }

  /** The numbers 0 .. n-1. */
  function Below(n: nat): (v: set<int>)
    ensures forall m :: m in v <==> 0 <= m < n
    ensures |v| == n
  {
    if n == 0 then {} else Below(n - 1) + {n - 1}
  }

  /** A list of different vertices is no longer than the vertex set, and as long only if it has all. */
  lemma NoDupBound(s: seq<int>, v: set<int>)
    requires NoDup(s) && forall m :: m in s ==> m in v
    ensures |s| <= |v|
    ensures |s| == |v| <==> forall m :: m in v ==> m in s
  {
    ElemsSize(s);
    var e := set m | m in s;
    assert e <= v;
    assert |v| == |e| + |v - e|;
    if forall m :: m in v ==> m in s {
      assert v - e == {};
    } else {
      var m :| m in v && m !in s;
      assert m in v - e;
    }
  }

  lemma {:induction false} ElemsSize(s: seq<int>)
    requires NoDup(s)
    ensures |set m | m in s| == |s|
  {
    if s != [] {
      ElemsSize(s[1..]);
      assert (set m | m in s) == (set m | m in s[1..]) + {s[0]};
    }
  }

  /** `order` lists vertices without repetition, each after all its predecessors. */
  ghost predicate Topological(g: Edges, order: seq<int>) {
    && NoDup(order)
    && (forall i, q :: 0 <= i < |order| && (q, order[i]) in g ==> q in order[..i])
  }

  lemma {:induction false} OrderGrowsAlongWalk(g: Edges, order: seq<int>, w: seq<int>, i: nat) returns (j: nat)
    requires Topological(g, order) && IsWalk(g, w) && i < |order| && order[i] == w[|w| - 1]
    ensures j <= i && order[j] == w[0] && (|w| > 1 ==> j < i)
    decreases |w|
  {
    j := i;
    if |w| > 1 {
      assert (w[|w| - 2], order[i]) in g;
      var k :| 0 <= k < i && order[..i][k] == w[|w| - 2];
      SubWalk(g, w, 0, |w| - 2);
      assert w[0..|w| - 2 + 1] == w[..|w| - 1];
      j := OrderGrowsAlongWalk(g, order, w[..|w| - 1], k);
    }
  }

  /** A topological order of all edges' targets leaves no cycle. */
  lemma TopologicalIsAcyclic(g: Edges, order: seq<int>)
    requires Topological(g, order) && forall e :: e in g ==> e.1 in order
    ensures Acyclic(g)
  {
    forall w: seq<int> | |w| >= 2 && IsWalk(g, w) ensures w[0] != w[|w| - 1] {
      assert (w[|w| - 2], w[|w| - 1]) in g;
      var i :| 0 <= i < |order| && order[i] == w[|w| - 1];
      var j := OrderGrowsAlongWalk(g, order, w, i);
    }
  }
}
