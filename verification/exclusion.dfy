/** Safety of every run: conflicting bodies are never active together, except a caller and the nested
    work it lent an object to, although lent objects take no turn (src/static_task_graph.cpp). */
module Exclusion {
  import opened Pipes
  import opened Cascade
  import opened CascadeRun

  // ---- how tasks stand to each other -----------------------------------------------------------

  /** Every declared object is a turn of its own or lent by the parent; an unfinished task's parent is
      still inside its body; a started task's predecessors are done. */
  ghost predicate Placed(s: System, t: nat)
    requires t < |s.tasks|
  {
    var k := s.tasks[t];
    && k.batch <= t && Ascending(k.declared)
    && (forall d :: d in k.declared && d !in k.links ==> LentBy(s, k.parent, d))
    && (k.parent.Some? ==> k.parent.value < t)
    && (k.parent.Some? && k.phase != Done ==> s.tasks[k.parent.value].phase == Active)
    && (forall q :: q in k.preds ==> q < |s.tasks|)
    && (k.phase != Dormant ==> PredsDone(s, k))
  }

  predicate Siblings(s: System, a: nat, b: nat) {
    a < |s.tasks| && b < |s.tasks| && s.tasks[a].parent.Some? && s.tasks[a].parent == s.tasks[b].parent
  }

  /** Two tasks in spawn order: conflicting nodes of one run are ordered by an edge; a run that lends
      was started after every earlier run of the same caller had settled. */
  ghost predicate Ordered(s: System, a: nat, b: nat)
    requires a < b < |s.tasks|
  {
    && (s.tasks[a].batch == s.tasks[b].batch ==>
          s.tasks[a].parent == s.tasks[b].parent && (Conflict(s.tasks[a], s.tasks[b]) ==> a in s.tasks[b].preds))
    && (s.tasks[a].batch != s.tasks[b].batch && Siblings(s, a, b) && Lends(s.tasks[b]) ==> s.tasks[a].phase == Done)
  }

  ghost predicate Rel(s: System) {
    && (forall t: nat :: t < |s.tasks| ==> Placed(s, t))
    && (forall a: nat, b: nat :: a < b < |s.tasks| ==> Ordered(s, a, b))
  }

  /** The phases a step may move its task through. */
  predicate Forward(f: Phase, g: Phase) {
    && (f == Done ==> g == Done)
    && (g == Dormant ==> f == Dormant)
  }

  /** What a step does to the phase of one task. */
  ghost predicate MovesOn(s: System, s': System, t: nat)
    requires t < |s.tasks| == |s'.tasks|
  {
    var f, g := s.tasks[t].phase, s'.tasks[t].phase;
    && SameShape(s.tasks[t], s'.tasks[t]) && Forward(f, g)
    && (f == Dormant && g != Dormant ==> PredsDone(s, s.tasks[t]))
    && (f == Active && g != Active ==> ChildrenDone(s, t))
  }

  lemma ActorMovesOn(s: System, l: Label)
    requires Inv(s) && Enabled(s, l) && !l.Spawn?
    ensures Effect(s, l, Apply(s, l)) && MovesOn(s, Apply(s, l), Actor(l))
  {
    match l
    case Start(t) => StartStep(s, t);
    case Inline(t) => InlineStep(s, t);
    case Turn(t, i) => TurnStep(s, t, i);
    case Unlock(t, i) => UnlockStep(s, t, i);
    case Advance(t, i) => AdvanceStep(s, t, i);
    case _ => PhaseStep(s, l);
  }

  lemma StepForward(s: System, l: Label)
    requires Inv(s) && Enabled(s, l) && !l.Spawn?
    ensures Effect(s, l, Apply(s, l))
    ensures forall t: nat :: t < |s.tasks| ==> MovesOn(s, Apply(s, l), t)
  {
    ActorMovesOn(s, l);
    forall t: nat | t < |s.tasks| ensures MovesOn(s, Apply(s, l), t) {
      assert t != Actor(l) ==> Progressed(s.tasks[t], Apply(s, l).tasks[t]);
    }
  }

  /** One task's place among the others, after any step in which every task moved on. */
  lemma StepPlaced(s: System, s': System, t: nat)
    requires Rel(s) && |s'.tasks| == |s.tasks| && t < |s.tasks|
    requires forall u: nat :: u < |s.tasks| ==> MovesOn(s, s', u)
    ensures Placed(s', t)
  {
    assert Placed(s, t) && MovesOn(s, s', t);
    var k, k' := s.tasks[t], s'.tasks[t];
    if k'.parent.Some? && k'.phase != Done {
      var c := k.parent.value;
      assert MovesOn(s, s', c);
      assert !IsDone(s, t);
      assert !ChildrenDone(s, c);
    }
    if k'.phase != Dormant {
      assert PredsDone(s, k);
      forall q | q in k'.preds ensures IsDone(s', q) {
        assert IsDone(s, q) && MovesOn(s, s', q);
      }
    }
    forall d | d in k'.declared && d !in k'.links ensures LentBy(s', k'.parent, d) {
      assert LentBy(s, k.parent, d) && MovesOn(s, s', k.parent.value);
    }
  }

  lemma StepKeepsRel(s: System, l: Label)
    requires Inv(s) && Rel(s) && Enabled(s, l) && !l.Spawn?
    ensures Rel(Apply(s, l))
  {
    StepForward(s, l);
    var s' := Apply(s, l);
    forall t: nat | t < |s'.tasks| ensures Placed(s', t) {
      StepPlaced(s, s', t);
    }
    forall a: nat, b: nat | a < b < |s'.tasks| ensures Ordered(s', a, b) {
      assert Ordered(s, a, b) && MovesOn(s, s', a) && MovesOn(s, s', b);
    }
  }

  lemma SpawnPlaced(s: System, batch: seq<Task>, t: nat)
    requires Inv(s) && Rel(s) && BatchOk(s, batch) && t < |s.tasks| + |batch|
    ensures Placed(s.(tasks := s.tasks + batch), t)
  {
    var s' := s.(tasks := s.tasks + batch);
    var n := |s.tasks|;
    var k := s'.tasks[t];
    if t < n {
      assert Placed(s, t);
      if k.phase != Dormant {
        forall q | q in k.preds ensures IsDone(s', q) {
          assert IsDone(s, q);
        }
      }
    } else {
      assert k == batch[t - n] && Born(s, n, |batch|, k);
    }
    forall d | d in k.declared && d !in k.links ensures LentBy(s', k.parent, d) {
      assert LentBy(s, k.parent, d);
    }
  }

  lemma SpawnOrdered(s: System, batch: seq<Task>, a: nat, b: nat)
    requires Inv(s) && Rel(s) && BatchOk(s, batch) && a < b < |s.tasks| + |batch|
    ensures Ordered(s.(tasks := s.tasks + batch), a, b)
  {
    var s' := s.(tasks := s.tasks + batch);
    var n := |s.tasks|;
    if b < n {
      assert Ordered(s, a, b);
    } else if a < n {
      assert Placed(s, a) && Born(s, n, |batch|, batch[b - n]);
      if s'.tasks[b].parent.Some? && s'.tasks[a].parent == s'.tasks[b].parent && Lends(s'.tasks[b]) {
        assert ChildrenDone(s, s'.tasks[b].parent.value);
        assert IsDone(s, a);
      }
    } else {
      assert Born(s, n, |batch|, batch[a - n]) && Born(s, n, |batch|, batch[b - n]);
      assert Conflict(s'.tasks[a], s'.tasks[b]) <==> Conflict(batch[a - n], batch[b - n]);
    }
  }

  lemma SpawnKeepsRel(s: System, batch: seq<Task>)
    requires Inv(s) && Rel(s) && BatchOk(s, batch)
    ensures Rel(s.(tasks := s.tasks + batch))
  {
    var s' := s.(tasks := s.tasks + batch);
    forall t: nat | t < |s'.tasks| ensures Placed(s', t) {
      SpawnPlaced(s, batch, t);
    }
    forall a: nat, b: nat | a < b < |s'.tasks| ensures Ordered(s', a, b) {
      SpawnOrdered(s, batch, a, b);
    }
  }

  lemma AnyStepKeepsAll(s: System, l: Label)
    requires Inv(s) && Rel(s) && Enabled(s, l)
    ensures Inv(Apply(s, l)) && Rel(Apply(s, l))
  {
    StepKeepsInv(s, l);
    if l.Spawn? {
      SpawnKeepsRel(s, l.batch);
    } else {
      StepKeepsRel(s, l);
    }
  }

  // ---- runs -----------------------------------------------------------------------------------

  /** A fresh system: any number of unused pipes and no task. */
  ghost predicate Initial(s: System) {
    s.tasks == [] && forall p: nat :: p < |s.pipes| ==> s.pipes[p] == FRESH
  }

  /** `l` takes `s` to `s'`.  `Apply` is defined on states that satisfy the protocol invariant, which
      by RunKeepsAll are all states a run meets. */
  ghost predicate Step(s: System, l: Label, s': System) {
    Inv(s) ==> Enabled(s, l) && s' == Apply(s, l)
  }

  /** `states` is a run taking `labels` in order. */
  ghost predicate IsRun(states: seq<System>, labels: seq<Label>) {
    && |states| == |labels| + 1 && Initial(states[0])
    && forall k :: 0 <= k < |labels| ==> Step(states[k], labels[k], states[k + 1])
  }

  lemma InitialOk(s: System)
    requires Initial(s)
    ensures Inv(s) && Rel(s)
  {
  }

  /** Every state of every run satisfies the protocol invariant and the relations between tasks. */
  lemma {:induction false} RunKeepsAll(states: seq<System>, labels: seq<Label>, k: nat)
    requires IsRun(states, labels) && k < |states|
    ensures Inv(states[k]) && Rel(states[k])
    decreases k
  {
    if k == 0 {
      InitialOk(states[0]);
    } else {
      RunKeepsAll(states, labels, k - 1);
      var l := labels[k - 1];
      assert Step(states[k - 1], l, states[k]);
      AnyStepKeepsAll(states[k - 1], l);
    }
  }

  // ---- the exclusion theorem --------------------------------------------------------------------

  predicate ActiveBody(s: System, t: nat) {
    t < |s.tasks| && s.tasks[t].phase == Active
  }

  predicate Touches(s: System, t: nat, d: Link) {
    t < |s.tasks| && d in s.tasks[t].declared
  }

  /** `x` is a caller of `y`, directly or through further nested work. */
  predicate Ancestor(s: System, x: nat, y: nat)
    decreases y
  {
    && y < |s.tasks| && s.tasks[y].parent.Some? && s.tasks[y].parent.value < y
    && (s.tasks[y].parent.value == x || Ancestor(s, x, s.tasks[y].parent.value))
  }

  /** The object of `d` reached `t` by lending only, from holder `h` down. */
  ghost predicate LentPath(s: System, t: nat, p: nat, h: nat)
    decreases t
  {
    && t < |s.tasks|
    && (t == h || (&& s.tasks[t].parent.Some? && s.tasks[t].parent.value < t
                   && (exists d :: d in s.tasks[t].declared && d.pipe == p && d !in s.tasks[t].links)
                   && LentPath(s, s.tasks[t].parent.value, p, h)))
  }

  /** Every active body reaches each of its objects under a grant some active task really holds in a
      covering mode: itself, or the caller at the top of the lending chain. */
  lemma {:induction false} HolderExists(s: System, t: nat, d: Link) returns (h: nat, i: nat)
    requires Inv(s) && Rel(s) && ActiveBody(s, t) && Touches(s, t, d)
    ensures ActiveBody(s, h) && LentPath(s, t, d.pipe, h)
    ensures HasLink(s, h, i) && PipeOf(s, h, i) == d.pipe && Covers(s.tasks[h].links[i].mode, d.mode)
    decreases t
  {
    var k := s.tasks[t];
    assert TaskInv(k) && KnownPipes(s, k.links) && Placed(s, t);
    if d in k.links {
      h := t;
      i :| 0 <= i < |k.links| && k.links[i] == d;
    } else {
      assert LentBy(s, k.parent, d);
      var c := k.parent.value;
      var x :| x in s.tasks[c].declared && x.pipe == d.pipe && Covers(x.mode, d.mode);
      h, i := HolderExists(s, c, x);
    }
  }

  /** Two different links inside one pipe are both readers. */
  lemma PipeExcludes(s: System, a: nat, i: nat, b: nat, j: nat)
    requires Inv(s) && HasLink(s, a, i) && HasLink(s, b, j) && a != b
    requires Holding(s.tasks[a].stage[i]) && Holding(s.tasks[b].stage[j])
    requires PipeOf(s, a, i) == PipeOf(s, b, j)
    ensures s.tasks[a].links[i].mode == s.tasks[b].links[j].mode == ReadOnly
  {
    var p := PipeOf(s, a, i);
    var ps := s.pipes[p];
    var e, f := EntryOf(s, a, i), EntryOf(s, b, j);
    assert Linked(s, p) && StageIs(s, p, e, false) && StageIs(s, p, f, false);
    assert Inside(ps, e) && Inside(ps, f) && e != f;
    assert Sound(ps);
    forall x, y | x in ps.writing && y in ps.writing ensures x == y {
      OneWriter(ps, x, y);
    }
  }

  /** Two siblings that conflict on an object the later one was lent are never active together. */
  lemma SiblingsExcluded(s: System, a: nat, b: nat, d: Link, e: Link)
    requires Inv(s) && Rel(s) && a < b && ActiveBody(s, b) && Siblings(s, a, b) && Lends(s.tasks[b])
    requires Touches(s, a, d) && Touches(s, b, e) && d.pipe == e.pipe && (d.mode == ReadWrite || e.mode == ReadWrite)
    ensures !ActiveBody(s, a)
  {
    assert Ordered(s, a, b) && Placed(s, b);
    assert Conflict(s.tasks[a], s.tasks[b]);
    if s.tasks[a].batch == s.tasks[b].batch {
      assert IsDone(s, a);
    }
  }

  /** The child of `c` through which `y` descends, with the object still lent and covered. */
  lemma {:induction false} ChildOnPath(s: System, c: nat, y: nat, d: Link, h: nat) returns (z: nat, x: Link)
    requires Inv(s) && Rel(s) && ActiveBody(s, y) && Touches(s, y, d) && Ancestor(s, c, y)
    requires LentPath(s, y, d.pipe, h) && h <= c
    ensures ActiveBody(s, z) && s.tasks[z].parent == Some(c) && (z == y || Ancestor(s, z, y))
    ensures Touches(s, z, x) && x.pipe == d.pipe && Covers(x.mode, d.mode) && Lends(s.tasks[z])
    decreases y
  {
    assert Placed(s, y);
    AncestorIsEarlier(s, c, y);
    var q := s.tasks[y].parent.value;
    if q == c {
      z, x := y, d;
    } else {
      var w := CoveredByParent(s, y, d, h);
      z, x := ChildOnPath(s, c, q, w, h);
    }
  }

  lemma AncestorIsEarlier(s: System, x: nat, y: nat)
    requires Ancestor(s, x, y)
    ensures x < y
    decreases y
  {
    if s.tasks[y].parent.value != x {
      AncestorIsEarlier(s, x, s.tasks[y].parent.value);
    }
  }

  /** One step up a lending path: the parent's body is active and declares the object in a covering
      mode. */
  lemma CoveredByParent(s: System, y: nat, d: Link, h: nat) returns (w: Link)
    requires Inv(s) && Rel(s) && ActiveBody(s, y) && Touches(s, y, d) && LentPath(s, y, d.pipe, h) && y != h
    ensures var q := s.tasks[y].parent.value;
      ActiveBody(s, q) && Touches(s, q, w) && w.pipe == d.pipe && Covers(w.mode, d.mode) && LentPath(s, q, d.pipe, h)
  {
    assert Placed(s, y);
    var q := s.tasks[y].parent.value;
    var u :| u in s.tasks[y].declared && u.pipe == d.pipe && u !in s.tasks[y].links;
    assert u == d;
    assert LentBy(s, s.tasks[y].parent, d);
    w :| w in s.tasks[q].declared && w.pipe == d.pipe && Covers(w.mode, d.mode);
  }

  lemma LentPathGoesUp(s: System, t: nat, p: nat, h: nat)
    requires LentPath(s, t, p, h)
    ensures h <= t
    decreases t
  {
    if t != h {
      LentPathGoesUp(s, s.tasks[t].parent.value, p, h);
    }
  }

  /** Bodies that share one holder's grant and conflict are a caller and its nested work. */
  lemma {:induction false} LentTogether(s: System, a: nat, d: Link, b: nat, e: Link, h: nat)
    requires Inv(s) && Rel(s) && a != b && ActiveBody(s, a) && ActiveBody(s, b)
    requires Touches(s, a, d) && Touches(s, b, e) && d.pipe == e.pipe && (d.mode == ReadWrite || e.mode == ReadWrite)
    requires LentPath(s, a, d.pipe, h) && LentPath(s, b, d.pipe, h)
    ensures Ancestor(s, a, b) || Ancestor(s, b, a)
    decreases a + b, if a > b then 1 else 0
  {
    if a > b {
      LentTogether(s, b, e, a, d, h);
    } else {
      LentPathGoesUp(s, a, d.pipe, h);
      var q := s.tasks[b].parent.value;
      var w := CoveredByParent(s, b, e, h);
      if q != a {
        LentTogether(s, a, d, q, w, h);
        if !Ancestor(s, a, q) {
          LentPathGoesUp(s, q, d.pipe, h);
          AncestorIsEarlier(s, q, a);
          var z, x := ChildOnPath(s, q, a, d, h);
          if z != a { AncestorIsEarlier(s, z, a); }
          SiblingsExcluded(s, z, b, x, e);
        }
      }
    }
  }

  /** A caller of an active body has nested work under way, so it cannot settle. */
  lemma {:induction false} CallerIsWaiting(s: System, x: nat, y: nat)
    requires Inv(s) && Rel(s) && ActiveBody(s, y) && Ancestor(s, x, y)
    ensures ActiveBody(s, x) && !ChildrenDone(s, x)
    decreases y
  {
    assert Placed(s, y) && !IsDone(s, y);
    var q := s.tasks[y].parent.value;
    if q != x {
      CallerIsWaiting(s, x, q);
    }
  }

  /** `x` called `y`, directly or through further nested work, and still waits for it; the object came to
      both by lending from the one task `h` that holds its pipe. */
  ghost predicate NestedUnder(s: System, x: nat, y: nat, p: nat, h: nat) {
    Ancestor(s, x, y) && !ChildrenDone(s, x) && LentPath(s, x, p, h) && LentPath(s, y, p, h)
  }

  /** Two active bodies that touch one object, one of them writing, are nested under one holder. */
  lemma ConflictIsNested(s: System, a: nat, d: Link, b: nat, e: Link) returns (h: nat, i: nat)
    requires Inv(s) && Rel(s) && a != b && ActiveBody(s, a) && ActiveBody(s, b)
    requires Touches(s, a, d) && Touches(s, b, e) && d.pipe == e.pipe && (d.mode == ReadWrite || e.mode == ReadWrite)
    ensures ActiveBody(s, h) && HasLink(s, h, i) && PipeOf(s, h, i) == d.pipe && Holding(s.tasks[h].stage[i])
    ensures NestedUnder(s, a, b, d.pipe, h) || NestedUnder(s, b, a, d.pipe, h)
  {
    h, i := HolderExists(s, a, d);
    var hb, j := HolderExists(s, b, e);
    assert TaskInv(s.tasks[h]) && TaskInv(s.tasks[hb]);
    if h != hb {
      PipeExcludes(s, h, i, hb, j);
    }
    LentTogether(s, a, d, b, e, h);
    if Ancestor(s, a, b) {
      CallerIsWaiting(s, a, b);
    } else {
      CallerIsWaiting(s, b, a);
    }
  }

  /** In every state of every run: if two active bodies touch one object and one of them writes it, then
      one called the other and waits for it, and both have the object from one task that is inside its
      pipe, by lending all the way. */
  lemma ConflictingBodiesAreNested(states: seq<System>, labels: seq<Label>, n: nat, a: nat, d: Link, b: nat, e: Link)
    returns (h: nat, i: nat)
    requires IsRun(states, labels) && n < |states| && a != b
    requires ActiveBody(states[n], a) && ActiveBody(states[n], b)
    requires Touches(states[n], a, d) && Touches(states[n], b, e)
    requires d.pipe == e.pipe && (d.mode == ReadWrite || e.mode == ReadWrite)
    ensures ActiveBody(states[n], h) && HasLink(states[n], h, i) && PipeOf(states[n], h, i) == d.pipe
    ensures Holding(states[n].tasks[h].stage[i])
    ensures NestedUnder(states[n], a, b, d.pipe, h) || NestedUnder(states[n], b, a, d.pipe, h)
  {
    RunKeepsAll(states, labels, n);
    h, i := ConflictIsNested(states[n], a, d, b, e);
  }

  /** Without nesting this is plain mutual exclusion. */
  lemma TopLevelBodiesExclude(states: seq<System>, labels: seq<Label>, n: nat, a: nat, b: nat)
    requires IsRun(states, labels) && n < |states| && a != b
    requires ActiveBody(states[n], a) && ActiveBody(states[n], b)
    requires states[n].tasks[a].parent == None && states[n].tasks[b].parent == None
    ensures !Conflict(states[n].tasks[a], states[n].tasks[b])
  {
    var s := states[n];
    if Conflict(s.tasks[a], s.tasks[b]) {
      var x, y :| x in s.tasks[a].declared && y in s.tasks[b].declared && x.pipe == y.pipe
                  && (x.mode == ReadWrite || y.mode == ReadWrite);
      var h, i := ConflictingBodiesAreNested(states, labels, n, a, x, b, y);
    }
  }

  // ---- dispatch and conservation -----------------------------------------------------------------

  /** How often a step has been taken. */
  ghost function Times(labels: seq<Label>, l: Label): nat {
    multiset(labels)[l]
  }

  lemma OneMore(labels: seq<Label>, k: nat, l: Label)
    requires 0 < k <= |labels|
    ensures Times(labels[..k], l) == Times(labels[..k - 1], l) + (if labels[k - 1] == l then 1 else 0)
  {
    assert labels[..k] == labels[..k - 1] + [labels[k - 1]];
  }

  /** The phases before, in and after the body. */
  predicate BeforeBody(f: Phase) {
    f in {Dormant, Entering, Ready}
  }

  predicate AfterBody(f: Phase) {
    f in {Settling, Done}
  }

  /** What a step does to a task, as far as its body is concerned. */
  predicate BodyMoves(l: Label, t: nat, f: Phase, g: Phase) {
    if l == Run(t) || l == Inline(t) then BeforeBody(f) && g == Active
    else if l == Settle(t) then f == Active && AfterBody(g)
    else (BeforeBody(f) <==> BeforeBody(g)) && (AfterBody(f) <==> AfterBody(g))
  }

  lemma ActorBody(s: System, l: Label)
    requires Inv(s) && Enabled(s, l) && !l.Spawn?
    ensures Actor(l) < |s.tasks| == |Apply(s, l).tasks|
    ensures BodyMoves(l, Actor(l), s.tasks[Actor(l)].phase, Apply(s, l).tasks[Actor(l)].phase)
  {
    match l
    case Start(u) => StartStep(s, u);
    case Inline(u) => InlineStep(s, u);
    case Turn(u, i) => TurnStep(s, u, i);
    case Unlock(u, i) => UnlockStep(s, u, i);
    case Advance(u, i) => AdvanceStep(s, u, i);
    case _ => PhaseStep(s, l);
  }

  /** Only the step that runs a body makes a task active, and only settling ends that. */
  lemma BodySteps(s: System, l: Label, t: nat)
    requires Inv(s) && Enabled(s, l) && t < |s.tasks|
    ensures t < |Apply(s, l).tasks| && BodyMoves(l, t, s.tasks[t].phase, Apply(s, l).tasks[t].phase)
  {
    if !l.Spawn? {
      StepKeepsInv(s, l);
      if t == Actor(l) {
        ActorBody(s, l);
      } else {
        assert Progressed(s.tasks[t], Apply(s, l).tasks[t]);
      }
    }
  }

  /** Every task's body runs at most once over the whole run, through its cascade or through the inline
      probe, and its phase says exactly whether it has run and whether it has settled. */
  lemma {:induction false} BodyRunsOnce(states: seq<System>, labels: seq<Label>, n: nat, t: nat)
    requires IsRun(states, labels) && n < |states|
    ensures Times(labels[..n], Run(t)) + Times(labels[..n], Inline(t))
      == (if t < |states[n].tasks| && !BeforeBody(states[n].tasks[t].phase) then 1 else 0)
    ensures Times(labels[..n], Settle(t)) == (if t < |states[n].tasks| && AfterBody(states[n].tasks[t].phase) then 1 else 0)
    decreases n
  {
    if n > 0 {
      BodyRunsOnce(states, labels, n - 1, t);
      RunKeepsAll(states, labels, n - 1);
      var s, l := states[n - 1], labels[n - 1];
      OneMore(labels, n, Run(t));
      OneMore(labels, n, Inline(t));
      OneMore(labels, n, Settle(t));
      assert Step(s, l, states[n]);
      if t < |s.tasks| {
        BodySteps(s, l, t);
      } else {
        NewTasksAreDormant(s, l, t);
      }
    }
  }

  lemma NewTasksAreDormant(s: System, l: Label, t: nat)
    requires Inv(s) && Enabled(s, l) && t >= |s.tasks|
    ensures l != Run(t) && l != Inline(t) && l != Settle(t)
    ensures t < |Apply(s, l).tasks| ==> Apply(s, l).tasks[t].phase == Dormant
  {
    StepKeepsInv(s, l);
    if l.Spawn? && t < |s.tasks| + |l.batch| {
      assert Born(s, |s.tasks|, |l.batch|, l.batch[t - |s.tasks|]);
    }
  }

  /** A task is dispatched at most once over the whole run; from its dispatch until it settles it is
      inside every pipe it has a link on; when it is done it is inside none. */
  lemma DispatchedOnceHoldingAll(states: seq<System>, labels: seq<Label>, n: nat, t: nat, i: nat)
    requires IsRun(states, labels) && n < |states| && HasLink(states[n], t, i)
    ensures var s := states[n]; var k := s.tasks[t];
      && (k.phase in {Dormant, Entering} ==> k.starts == 0)
      && (k.phase !in {Dormant, Entering} ==> k.starts == 1)
      && (k.phase in {Ready, Active} ==> Inside(PipeFor(s, t, i), EntryOf(s, t, i)))
      && (k.phase in {Dormant, Done} ==> Absent(PipeFor(s, t, i), EntryOf(s, t, i)))
  {
    RunKeepsAll(states, labels, n);
    var s := states[n];
    var e := EntryOf(s, t, i);
    assert TaskInv(s.tasks[t]) && Linked(s, PipeOf(s, t, i));
    assert StageIs(s, PipeOf(s, t, i), e, false) <==> Holding(s.tasks[t].stage[i]);
    assert StageIs(s, PipeOf(s, t, i), e, true) <==> s.tasks[t].stage[i] == Queued;
  }

  /** Grants are conserved: once every task is done, every pipe is drained and has admitted exactly the
      entries that ever arrived, in their order of arrival. */
  lemma GrantsConserved(states: seq<System>, labels: seq<Label>, n: nat, p: nat)
    requires IsRun(states, labels) && n < |states| && p < |states[n].pipes|
    requires forall t: nat :: t < |states[n].tasks| ==> IsDone(states[n], t)
    ensures Drained(states[n].pipes[p])
    ensures states[n].pipes[p].admitted == states[n].pipes[p].arrivals
  {
    RunKeepsAll(states, labels, n);
    var s := states[n];
    var ps := s.pipes[p];
    assert Linked(s, p) && Sound(ps);
    forall e: Entry
      ensures !Inside(ps, e) && e !in ps.queue
    {
      if IsLink(s, p, e) {
        assert IsDone(s, e.task) && TaskInv(s.tasks[e.task]);
      }
      assert !StageIs(s, p, e, false) && !StageIs(s, p, e, true);
    }
    assert forall i :: 0 <= i < |ps.queue| ==> ps.queue[i] in ps.queue;
    assert forall e :: e in ps.reading ==> Inside(ps, e);
    assert forall e :: e in ps.writing ==> Inside(ps, e);
  }
}
