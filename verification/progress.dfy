/** Progress of the cascade: canonical order rules out cross-object deadlock, and every step uses up a
    measure, so any finite set of tasks settles. */
module Progress {
  import opened Pipes
  import opened Cascade
  import opened CascadeRun
  import opened Exclusion

  ghost predicate TopLevel(s: System) {
    forall t: nat :: t < |s.tasks| ==> s.tasks[t].parent == None
  }

  /** `rank` orders every task after its predecessors: the compiled edges have no cycle. */
  ghost predicate Ranked(s: System, rank: nat -> nat) {
    forall t: nat, q: nat :: t < |s.tasks| && q in s.tasks[t].preds ==> rank(q) < rank(t)
  }

  // ---- some step is always possible -----------------------------------------------------------

  datatype Next = Can(l: Label) | Waits(i: nat)

  predicate WaitsAt(s: System, t: nat, i: nat) {
    && HasLink(s, t, i) && s.tasks[t].phase == Entering && s.tasks[t].stage[i] == Queued
    && forall j :: i < j < |s.tasks[t].stage| ==> s.tasks[t].stage[j] == Idle
  }

  ghost predicate CanStep(s: System, l: Label) {
    !l.Spawn? && Enabled(s, l)
  }

  /** Past a link that was not passed, nothing was entered. */
  lemma NothingBeyond(k: Task, i: nat)
    requires TaskInv(k) && i < |k.stage| && !Passed(k.stage[i])
    ensures forall j :: i < j < |k.stage| ==> k.stage[j] == Idle
  {
    var j := i;
    while j + 1 < |k.stage|
      invariant i <= j < |k.stage| && !Passed(k.stage[j])
      invariant forall x :: i < x <= j ==> k.stage[x] == Idle
    {
      assert Passed(k.stage[j]) <==> k.stage[j + 1] != Idle;
      j := j + 1;
    }
  }

  lemma FirstNot(stage: seq<Stage>, st: Stage) returns (i: nat)
    requires !All(stage, st)
    ensures i < |stage| && stage[i] != st
    ensures forall j :: 0 <= j < i ==> stage[j] == st
  {
    i := 0;
    while i < |stage| && stage[i] == st
      invariant i <= |stage|
      invariant forall j :: 0 <= j < i ==> stage[j] == st
    {
      i := i + 1;
    }
  }

  /** A task in the cascade can move, unless it waits in some pipe's queue. */
  lemma EnteringMovesOrWaits(s: System, t: nat) returns (x: Next)
    requires Inv(s) && t < |s.tasks| && s.tasks[t].phase == Entering
    ensures x.Can? ==> CanStep(s, x.l)
    ensures x.Waits? ==> WaitsAt(s, t, x.i)
  {
    var k := s.tasks[t];
    assert TaskInv(k) && KnownPipes(s, k.links);
    if All(k.stage, Fired) {
      UnfiredBounds(k.stage);
      x := Can(Suspend(t));
    } else {
      var i := FirstNot(k.stage, Fired);
      if i > 0 {
        assert Passed(k.stage[i - 1]) <==> k.stage[i] != Idle;
      }
      assert HasLink(s, t, i);
      if k.stage[i] == Granted {
        x := Can(Turn(t, i));
      } else if k.stage[i] == Cascaded {
        x := Can(Unlock(t, i));
      } else {
        NothingBeyond(k, i);
        x := Waits(i);
      }
    }
  }

  lemma StartedMovesOrWaits(s: System, t: nat) returns (x: Next)
    requires Inv(s) && TopLevel(s) && t < |s.tasks| && s.tasks[t].phase !in {Dormant, Done}
    ensures x.Can? ==> CanStep(s, x.l)
    ensures x.Waits? ==> WaitsAt(s, t, x.i)
  {
    var k := s.tasks[t];
    assert TaskInv(k) && KnownPipes(s, k.links);
    match k.phase
    case Entering => x := EnteringMovesOrWaits(s, t);
    case Ready => x := Can(Run(t));
    case Active => x := Can(Settle(t));
    case Settling =>
      if All(k.stage, Retired) {
        x := Can(Finish(t));
      } else {
        var i := FirstNot(k.stage, Retired);
        assert HasLink(s, t, i);
        x := Can(Advance(t, i));
      }
  }

  /** Whoever waits in a pipe waits behind a holder, and a holder can only wait in a higher pipe. */
  lemma {:induction false} FollowTheHolders(s: System, t: nat, i: nat) returns (l: Label)
    requires Inv(s) && TopLevel(s) && WaitsAt(s, t, i)
    ensures CanStep(s, l)
    decreases |s.pipes| - PipeOf(s, t, i)
  {
    var p := PipeOf(s, t, i);
    var ps := s.pipes[p];
    assert Linked(s, p) && Unlocked(ps) && StageIs(s, p, EntryOf(s, t, i), true);
    assert EntryOf(s, t, i) in ps.queue;
    var e := WaitersAreBehindAHolder(ps);
    assert StageIs(s, p, e, false);
    var h := e.task;
    assert TaskInv(s.tasks[h]) && KnownPipes(s, s.tasks[h].links);
    var x := StartedMovesOrWaits(s, h);
    if x.Can? {
      l := x.l;
    } else {
      assert e.index < x.i;
      l := FollowTheHolders(s, h, x.i);
    }
  }

  /** Deadlock freedom: while some task is unfinished, some step of some task is enabled. */
  lemma {:induction false} NeverStuck(s: System, rank: nat -> nat, t: nat) returns (l: Label)
    requires Inv(s) && Rel(s) && TopLevel(s) && Ranked(s, rank)
    requires t < |s.tasks| && s.tasks[t].phase != Done
    ensures CanStep(s, l)
    decreases rank(t)
  {
    var k := s.tasks[t];
    assert Placed(s, t);
    if k.phase != Dormant {
      var x := StartedMovesOrWaits(s, t);
      if x.Can? { l := x.l; } else { l := FollowTheHolders(s, t, x.i); }
    } else if PredsDone(s, k) {
      l := Start(t);
    } else {
      var q :| q in k.preds && !IsDone(s, q);
      l := NeverStuck(s, rank, q);
    }
  }

  // ---- every step uses up work ------------------------------------------------------------------

  function StageRank(st: Stage): nat {
    match st case Idle => 5 case Queued => 4 case Granted => 3 case Cascaded => 2 case Fired => 1 case Retired => 0
  }

  function PhaseRank(f: Phase): nat {
    match f case Dormant => 5 case Entering => 4 case Ready => 3 case Active => 2 case Settling => 1 case Done => 0
  }

  function StageWork(stage: seq<Stage>): nat {
    if stage == [] then 0 else StageRank(stage[0]) + StageWork(stage[1..])
  }

  function GateWork(g: Gate): nat {
    if g.Handshake? && !g.suspended then 1 else 0
  }

  function TaskWork(k: Task): nat {
    StageWork(k.stage) + PhaseRank(k.phase) + GateWork(k.gate)
  }

  function Work(tasks: seq<Task>): nat {
    if tasks == [] then 0 else TaskWork(tasks[0]) + Work(tasks[1..])
  }

  lemma {:induction false} StageWorkMonotone(a: seq<Stage>, b: seq<Stage>)
    requires |a| == |b| && forall i :: 0 <= i < |a| ==> StageRank(b[i]) <= StageRank(a[i])
    ensures StageWork(b) <= StageWork(a)
    ensures (exists i :: 0 <= i < |a| && StageRank(b[i]) < StageRank(a[i])) ==> StageWork(b) < StageWork(a)
  {
    if a != [] {
      StageWorkMonotone(a[1..], b[1..]);
      if i :| 0 <= i < |a| && StageRank(b[i]) < StageRank(a[i]) {
        if i > 0 {
          assert StageRank(b[1..][i - 1]) < StageRank(a[1..][i - 1]);
        }
      }
    }
  }

  lemma {:induction false} WorkMonotone(a: seq<Task>, b: seq<Task>, n: nat)
    requires |a| == |b| && forall i :: 0 <= i < |a| ==> TaskWork(b[i]) <= TaskWork(a[i])
    requires n < |a| && TaskWork(b[n]) < TaskWork(a[n])
    ensures Work(b) < Work(a)
  {
    if n > 0 {
      assert TaskWork(b[1..][n - 1]) < TaskWork(a[1..][n - 1]);
      WorkMonotone(a[1..], b[1..], n - 1);
    } else {
      WorkLeq(a[1..], b[1..]);
    }
  }

  lemma {:induction false} WorkLeq(a: seq<Task>, b: seq<Task>)
    requires |a| == |b| && forall i :: 0 <= i < |a| ==> TaskWork(b[i]) <= TaskWork(a[i])
    ensures Work(b) <= Work(a)
  {
    if a != [] {
      WorkLeq(a[1..], b[1..]);
    }
  }

  /** `b` is no further from done than `a`, and strictly closer in some respect. */
  predicate Closer(a: Task, b: Task) {
    && |a.stage| == |b.stage|
    && (forall i :: 0 <= i < |a.stage| ==> StageRank(b.stage[i]) <= StageRank(a.stage[i]))
    && PhaseRank(b.phase) <= PhaseRank(a.phase) && GateWork(b.gate) <= GateWork(a.gate)
    && (|| PhaseRank(b.phase) < PhaseRank(a.phase) || GateWork(b.gate) < GateWork(a.gate)
        || exists i :: 0 <= i < |a.stage| && StageRank(b.stage[i]) < StageRank(a.stage[i]))
  }

  ghost predicate MovesCloser(s: System, l: Label)
    requires Inv(s) && CanStep(s, l)
  {
    Effect(s, l, Apply(s, l)) && Closer(s.tasks[Actor(l)], Apply(s, l).tasks[Actor(l)])
  }

  lemma StartsGetCloser(s: System, l: Label)
    requires Inv(s) && CanStep(s, l) && (l.Start? || l.Inline?)
    ensures MovesCloser(s, l)
  {
    if l.Start? {
      StartGetsCloser(s, l.t);
    } else {
      InlineStep(s, l.t);
      assert TaskInv(s.tasks[l.t]) && TaskInv(Apply(s, l).tasks[l.t]);
    }
  }

  lemma StartGetsCloser(s: System, t: nat)
    requires Inv(s) && CanStep(s, Start(t))
    ensures MovesCloser(s, Start(t))
  {
    StartStep(s, t);
    assert TaskInv(s.tasks[t]);
  }

  lemma TurnGetsCloser(s: System, t: nat, i: nat)
    requires Inv(s) && CanStep(s, Turn(t, i))
    ensures MovesCloser(s, Turn(t, i))
  {
    TurnStep(s, t, i);
    var k := s.tasks[t];
    var k' := Apply(s, Turn(t, i)).tasks[t];
    assert TaskInv(k);
    assert i + 1 < |k.stage| ==> (Passed(k.stage[i]) <==> k.stage[i + 1] != Idle);
    assert StageRank(k'.stage[i]) < StageRank(k.stage[i]);
  }

  lemma UnlockGetsCloser(s: System, t: nat, i: nat)
    requires Inv(s) && CanStep(s, Unlock(t, i))
    ensures MovesCloser(s, Unlock(t, i))
  {
    UnlockStep(s, t, i);
    var k, k' := s.tasks[t], Apply(s, Unlock(t, i)).tasks[t];
    assert k'.stage == k.stage[i := Fired];
    assert StageRank(k'.stage[i]) < StageRank(k.stage[i]);
  }

  lemma AdvanceGetsCloser(s: System, t: nat, i: nat)
    requires Inv(s) && CanStep(s, Advance(t, i))
    ensures MovesCloser(s, Advance(t, i))
  {
    AdvanceStep(s, t, i);
    var k, k' := s.tasks[t], Apply(s, Advance(t, i)).tasks[t];
    assert k'.stage == k.stage[i := Retired];
    assert StageRank(k'.stage[i]) < StageRank(k.stage[i]);
  }

  lemma ActorGetsCloser(s: System, l: Label)
    requires Inv(s) && CanStep(s, l)
    ensures MovesCloser(s, l)
  {
    match l
    case Start(_) => StartsGetCloser(s, l);
    case Inline(_) => StartsGetCloser(s, l);
    case Turn(t, i) => TurnGetsCloser(s, t, i);
    case Unlock(t, i) => UnlockGetsCloser(s, t, i);
    case Advance(t, i) => AdvanceGetsCloser(s, t, i);
    case _ => PhaseStep(s, l);
  }

  lemma StepShrinksWork(s: System, l: Label)
    requires Inv(s) && CanStep(s, l)
    ensures Work(Apply(s, l).tasks) < Work(s.tasks)
  {
    ActorGetsCloser(s, l);
    var s' := Apply(s, l);
    forall t: nat | t < |s.tasks|
      ensures TaskWork(s'.tasks[t]) <= TaskWork(s.tasks[t])
      ensures t == Actor(l) ==> TaskWork(s'.tasks[t]) < TaskWork(s.tasks[t])
    {
      StageWorkMonotone(s.tasks[t].stage, s'.tasks[t].stage);
    }
    WorkMonotone(s.tasks, s'.tasks, Actor(l));
  }

  /** Once no more tasks are added, a run cannot go on for longer than the work left, and it can only
      end with every task settled: no task is left waiting for another one's pipe. */
  lemma {:induction false} EveryTaskSettles(states: seq<System>, labels: seq<Label>, m: nat, rank: nat -> nat)
    requires IsRun(states, labels) && m <= |labels|
    requires forall k :: m <= k < |labels| ==> !labels[k].Spawn?
    requires TopLevel(states[m]) && Ranked(states[m], rank)
    ensures |labels| - m <= Work(states[m].tasks)
    ensures (forall l :: !CanStep(states[|labels|], l)) ==>
      forall t: nat :: t < |states[|labels|].tasks| ==> IsDone(states[|labels|], t)
    decreases |labels| - m
  {
    RunKeepsAll(states, labels, m);
    if m == |labels| {
      var s := states[m];
      if t: nat :| t < |s.tasks| && !IsDone(s, t) {
        var l := NeverStuck(s, rank, t);
      }
    } else {
      assert Step(states[m], labels[m], states[m + 1]);
      StepShrinksWork(states[m], labels[m]);
      StepForward(states[m], labels[m]);
      var s, s' := states[m], states[m + 1];
      forall t: nat | t < |s'.tasks| ensures s'.tasks[t].parent == None && s'.tasks[t].preds == s.tasks[t].preds {
        assert MovesOn(s, s', t);
      }
      EveryTaskSettles(states, labels, m + 1, rank);
    }
  }
}
