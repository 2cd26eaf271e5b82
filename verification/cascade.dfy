/** Many pipes and many tasks: the canonical cascade of src/guarded.cpp as a transition system.

    A task owns one link per pipe it takes a turn on, in ascending pipe order.  Entering a pipe,
    firing a granted turn and dropping the task's lock are separate steps, because firing happens
    after the pipe's mutex is released; in between, any other step may be taken.  Guards
    (`Multi_access_awaiter`) take their pipes the same way and meet their suspending caller in a
    two-sided handshake instead of a lock count. */
module Cascade {
  import opened Pipes

  datatype Link = Link(pipe: nat, mode: Mode)

  /** Where one link is: not entered, waiting, admitted with its turn not yet fired, its successor
      entered but the lock not yet dropped, fired, released again. */
  datatype Stage = Idle | Queued | Granted | Cascaded | Fired | Retired

  datatype Phase = Dormant | Entering | Ready | Active | Settling | Done

  /** What a task waits on before its body: one lock per link, or the exchange word of a guard. */
  datatype Gate = Locks(left: nat) | Handshake(word: nat, suspended: bool)

  /** `declared` are the objects the body touches; `links` those it takes a turn on (the rest are lent
      by `parent`).  `batch` names the graph run a node belongs to and `preds` its compiled
      predecessors.  `starts` counts dispatches. */
  datatype Task = Task(
    declared: seq<Link>,
    links: seq<Link>,
    stage: seq<Stage>,
    gate: Gate,
    phase: Phase,
    starts: nat,
    parent: Option<nat>,
    batch: nat,
    preds: set<nat>)

  datatype System = System(pipes: seq<PipeState>, tasks: seq<Task>)

  predicate Holding(st: Stage) {
    st == Granted || st == Cascaded || st == Fired
  }

  predicate Passed(st: Stage) {
    st == Cascaded || st == Fired || st == Retired
  }

  predicate Ascending(links: seq<Link>) {
    forall i, j :: 0 <= i < j < |links| ==> links[i].pipe < links[j].pipe
  }

  predicate HasLink(s: System, t: nat, i: nat) {
    && t < |s.tasks| && i < |s.tasks[t].links| == |s.tasks[t].stage|
    && s.tasks[t].links[i].pipe < |s.pipes|
  }

  function EntryOf(s: System, t: nat, i: nat): Entry
    requires HasLink(s, t, i)
  {
    Entry(t, i, s.tasks[t].links[i].mode)
  }

  function PipeOf(s: System, t: nat, i: nat): nat
    requires HasLink(s, t, i)
  {
    s.tasks[t].links[i].pipe
  }

  /** `e` is a link of some task, and that link names pipe `p`. */
  predicate IsLink(s: System, p: nat, e: Entry) {
    HasLink(s, e.task, e.index) && s.tasks[e.task].links[e.index] == Link(p, e.mode)
  }

  predicate StageIs(s: System, p: nat, e: Entry, q: bool) {
    IsLink(s, p, e) && (if q then s.tasks[e.task].stage[e.index] == Queued else Holding(s.tasks[e.task].stage[e.index]))
  }

  /** A pipe and the tasks agree on who waits and who is inside. */
  ghost predicate Linked(s: System, p: nat)
    requires p < |s.pipes|
  {
    forall e: Entry ::
      && (Inside(s.pipes[p], e) <==> StageIs(s, p, e, false))
      && (e in s.pipes[p].queue <==> StageIs(s, p, e, true))
  }

  ghost predicate PipesOk(s: System) {
    forall p: nat :: p < |s.pipes| ==> Sound(s.pipes[p]) && Linked(s, p)
  }

  ghost predicate Blocked(s: System) {
    forall p: nat :: p < |s.pipes| ==> Unlocked(s.pipes[p])
  }

  // ---- one task's own invariant ------------------------------------------------------------

  function Unfired(stage: seq<Stage>): nat {
    if stage == [] then 0
    else Unfired(stage[..|stage| - 1]) + (if stage[|stage| - 1] == Fired then 0 else 1)
  }

  predicate All(stage: seq<Stage>, st: Stage) {
    forall i :: 0 <= i < |stage| ==> stage[i] == st
  }

  /** Turns are taken strictly in order: the next link is entered exactly when this one was passed. */
  predicate InOrder(stage: seq<Stage>) {
    forall i :: 0 <= i < |stage| - 1 ==> (Passed(stage[i]) <==> stage[i + 1] != Idle)
  }

  /** Links are released front to back. */
  predicate ReleasedInOrder(stage: seq<Stage>) {
    && (forall i :: 0 <= i < |stage| ==> stage[i] == Fired || stage[i] == Retired)
    && (forall i, j :: 0 <= i < j < |stage| && stage[j] == Retired ==> stage[i] == Retired)
  }

  predicate EnteringInv(k: Task) {
    && k.stage != [] && k.stage[0] != Idle && k.starts == 0
    && (forall i :: 0 <= i < |k.stage| ==> k.stage[i] != Retired)
    && match k.gate
       case Locks(left) => left == Unfired(k.stage) > 0
       case Handshake(word, suspended) =>
         && (forall i :: 0 <= i < |k.stage| ==> k.stage[i] != Cascaded)
         && (if All(k.stage, Fired) then word == 1 && !suspended else word == (if suspended then 2 else 0))
  }

  predicate PhaseInv(k: Task) {
    match k.phase
    case Dormant =>
      All(k.stage, Idle) && k.starts == 0
      && (k.gate == Locks(|k.stage|) || (k.gate == Handshake(0, false) && k.stage != []))
    case Entering => EnteringInv(k)
    case Ready => All(k.stage, Fired) && k.starts == 1
    case Active => All(k.stage, Fired) && k.starts == 1
    case Settling => k.starts == 1 && ReleasedInOrder(k.stage)
    case Done => All(k.stage, Retired) && k.starts == 1
  }

  predicate TaskInv(k: Task) {
    |k.stage| == |k.links| && Ascending(k.links) && InOrder(k.stage) && PhaseInv(k)
  }

  predicate KnownPipes(s: System, links: seq<Link>) {
    forall i :: 0 <= i < |links| ==> links[i].pipe < |s.pipes|
  }

  ghost predicate TasksOk(s: System) {
    forall t: nat :: t < |s.tasks| ==> TaskInv(s.tasks[t]) && KnownPipes(s, s.tasks[t].links)
  }

  /** The protocol invariant. */
  ghost predicate Inv(s: System) {
    PipesOk(s) && Blocked(s) && TasksOk(s)
  }

  // ---- the steps' building blocks ------------------------------------------------------------

  function Restage(s: System, t: nat, i: nat, ps: PipeState, st: Stage): System
    requires HasLink(s, t, i)
  {
    System(s.pipes[PipeOf(s, t, i) := ps], s.tasks[t := s.tasks[t].(stage := s.tasks[t].stage[i := st])])
  }

  function SetTask(s: System, t: nat, k: Task): System
    requires t < |s.tasks|
  {
    s.(tasks := s.tasks[t := k])
  }

  function PipeFor(s: System, t: nat, i: nat): PipeState
    requires HasLink(s, t, i)
  {
    s.pipes[PipeOf(s, t, i)]
  }

  /** Moving one link to a new stage keeps every pipe in agreement, provided its own pipe changed only
      in where that link is. */
  lemma RestageKeeps(s: System, t: nat, i: nat, ps: PipeState, st: Stage)
    requires PipesOk(s) && HasLink(s, t, i)
    requires Sound(ps)
    requires forall x :: x != EntryOf(s, t, i) ==>
      (Inside(ps, x) <==> Inside(PipeFor(s, t, i), x)) && (x in ps.queue <==> x in PipeFor(s, t, i).queue)
    requires Inside(ps, EntryOf(s, t, i)) <==> Holding(st)
    requires EntryOf(s, t, i) in ps.queue <==> st == Queued
    ensures PipesOk(Restage(s, t, i, ps, st))
  {
    var s' := Restage(s, t, i, ps, st);
    var e0 := EntryOf(s, t, i);
    forall p: nat | p < |s'.pipes|
      ensures Linked(s', p)
    {
      assert Linked(s, p);
      forall e: Entry
        ensures Inside(s'.pipes[p], e) <==> StageIs(s', p, e, false)
        ensures e in s'.pipes[p].queue <==> StageIs(s', p, e, true)
      {
        assert IsLink(s', p, e) <==> IsLink(s, p, e);
        if e.task == t && e.index == i && IsLink(s, p, e) {
          assert e == e0 && p == PipeOf(s, t, i);
        } else {
          assert StageIs(s', p, e, false) <==> StageIs(s, p, e, false);
          assert StageIs(s', p, e, true) <==> StageIs(s, p, e, true);
          assert p == PipeOf(s, t, i) ==> e != e0;
        }
      }
    }
  }

  /** `b` is `a` after other tasks' releases admitted some of its waiting links. */
  predicate Progressed(a: Task, b: Task) {
    && |a.stage| == |b.stage| && b == a.(stage := b.stage)
    && forall i :: 0 <= i < |a.stage| ==> b.stage[i] == a.stage[i] || (a.stage[i] == Queued && b.stage[i] == Granted)
  }

  /** Pipe `p` and links waiting on it are all that moved. */
  ghost predicate Advanced(s: System, s': System) {
    && |s'.tasks| == |s.tasks| && |s'.pipes| == |s.pipes|
    && forall t: nat :: t < |s.tasks| ==> Progressed(s.tasks[t], s'.tasks[t])
  }

  function PopAdmit(s: System, p: nat): System
    requires p < |s.pipes| && s.pipes[p].queue != [] && IsLink(s, p, s.pipes[p].queue[0])
  {
    var e := s.pipes[p].queue[0];
    Restage(s, e.task, e.index, PopHead(s.pipes[p]), Granted)
  }

  lemma PopAdmitKeeps(s: System, p: nat)
    requires PipesOk(s) && p < |s.pipes| && s.pipes[p].queue != [] && Admissible(s.pipes[p], s.pipes[p].queue[0].mode)
    ensures IsLink(s, p, s.pipes[p].queue[0])
    ensures PipesOk(PopAdmit(s, p))
    ensures Advanced(s, PopAdmit(s, p))
    ensures forall q: nat :: q < |s.pipes| && q != p ==> PopAdmit(s, p).pipes[q] == s.pipes[q]
  {
    var e := s.pipes[p].queue[0];
    assert e in s.pipes[p].queue;
    assert Linked(s, p);
    assert StageIs(s, p, e, true);
    PopHeadKeepsSound(s.pipes[p]);
    var q := PopHead(s.pipes[p]);
    assert s.pipes[p].queue == [e] + q.queue;
    assert Distinct(s.pipes[p].queue);
    assert e !in q.queue;
    RestageKeeps(s, e.task, e.index, q, Granted);
  }

  function Drain(s: System, p: nat): System
    requires PipesOk(s) && p < |s.pipes|
    decreases |s.pipes[p].queue|
  {
    if s.pipes[p].queue != [] && Admissible(s.pipes[p], s.pipes[p].queue[0].mode) then
      PopAdmitKeeps(s, p);
      Drain(PopAdmit(s, p), p)
    else s
  }

  /** An admission pass in the system is the pass of the pipe object, and moves waiting links only. */
  lemma {:induction false} DrainIsCollect(s: System, p: nat)
    requires PipesOk(s) && p < |s.pipes|
    ensures PipesOk(Drain(s, p)) && Advanced(s, Drain(s, p))
    ensures Drain(s, p).pipes == s.pipes[p := Collect(s.pipes[p])]
    ensures Unlocked(Drain(s, p).pipes[p])
    decreases |s.pipes[p].queue|
  {
    if s.pipes[p].queue != [] && Admissible(s.pipes[p], s.pipes[p].queue[0].mode) {
      PopAdmitKeeps(s, p);
      var s1 := PopAdmit(s, p);
      DrainIsCollect(s1, p);
      var s2 := Drain(s, p);
      forall t: nat | t < |s.tasks|
        ensures Progressed(s.tasks[t], s2.tasks[t])
      {
        assert Progressed(s.tasks[t], s1.tasks[t]);
        assert Progressed(s1.tasks[t], s2.tasks[t]);
      }
    }
  }

  /** The mutex section of `pipe_enter_link` / `pipe_acquire`. */
  function EnterLink(s: System, t: nat, i: nat): System
    requires HasLink(s, t, i)
  {
    var ps := PipeFor(s, t, i);
    var e := EntryOf(s, t, i);
    Restage(s, t, i, Enter(ps, e), if Free(ps, e.mode) then Granted else Queued)
  }

  /** Admits one link of an inline probe that found its pipe free. */
  function AdmitInline(s: System, t: nat, i: nat): System
    requires HasLink(s, t, i)
  {
    Restage(s, t, i, Enter(PipeFor(s, t, i), EntryOf(s, t, i)), Fired)
  }

  lemma EnterKeeps(s: System, t: nat, i: nat)
    requires PipesOk(s) && Blocked(s) && HasLink(s, t, i) && s.tasks[t].stage[i] == Idle
    ensures PipesOk(EnterLink(s, t, i)) && Blocked(EnterLink(s, t, i))
    ensures Free(PipeFor(s, t, i), s.tasks[t].links[i].mode) ==>
      PipesOk(AdmitInline(s, t, i)) && Blocked(AdmitInline(s, t, i))
  {
    var p := PipeOf(s, t, i);
    var ps, e := s.pipes[p], EntryOf(s, t, i);
    assert Linked(s, p) && IsLink(s, p, e);
    assert !StageIs(s, p, e, true) && !StageIs(s, p, e, false);
    assert Absent(ps, e);
    EnterKeepsUnlocked(ps, e);
    RestageKeeps(s, t, i, Enter(ps, e), if Free(ps, e.mode) then Granted else Queued);
    if Free(ps, e.mode) {
      assert e !in Enter(ps, e).queue;
      RestageKeeps(s, t, i, Enter(ps, e), Fired);
    }
  }

  function DropLink(s: System, t: nat, i: nat): System
    requires HasLink(s, t, i) && Sound(PipeFor(s, t, i)) && Inside(PipeFor(s, t, i), EntryOf(s, t, i))
  {
    Restage(s, t, i, Drop(PipeFor(s, t, i), EntryOf(s, t, i)), Retired)
  }

  lemma DropKeeps(s: System, t: nat, i: nat)
    requires PipesOk(s) && HasLink(s, t, i) && Holding(s.tasks[t].stage[i])
    ensures Inside(PipeFor(s, t, i), EntryOf(s, t, i))
    ensures PipesOk(DropLink(s, t, i))
  {
    var p := PipeOf(s, t, i);
    var ps, e := s.pipes[p], EntryOf(s, t, i);
    assert Linked(s, p) && StageIs(s, p, e, false);
    DropKeepsSound(ps, e);
    RestageKeeps(s, t, i, Drop(ps, e), Retired);
  }

  /** `release_and_redispatch` on link `i`'s pipe. */
  function ReleaseLink(s: System, t: nat, i: nat): System
    requires PipesOk(s) && HasLink(s, t, i) && Holding(s.tasks[t].stage[i])
  {
    DropKeeps(s, t, i);
    Drain(DropLink(s, t, i), PipeOf(s, t, i))
  }

  lemma ReleaseKeeps(s: System, t: nat, i: nat)
    requires PipesOk(s) && Blocked(s) && HasLink(s, t, i) && Holding(s.tasks[t].stage[i])
    ensures Inside(PipeFor(s, t, i), EntryOf(s, t, i))
    ensures PipesOk(ReleaseLink(s, t, i)) && Blocked(ReleaseLink(s, t, i))
    ensures ReleaseLink(s, t, i).pipes == s.pipes[PipeOf(s, t, i) := Release(PipeFor(s, t, i), EntryOf(s, t, i))]
    ensures Advanced(DropLink(s, t, i), ReleaseLink(s, t, i))
  {
    DropKeeps(s, t, i);
    DrainIsCollect(DropLink(s, t, i), PipeOf(s, t, i));
  }

  /** Changing fields of a task that no pipe looks at. */
  lemma SetTaskKeeps(s: System, t: nat, k: Task)
    requires PipesOk(s) && Blocked(s) && t < |s.tasks|
    requires k.links == s.tasks[t].links && |k.stage| == |s.tasks[t].stage|
    requires forall i :: 0 <= i < |k.stage| ==>
      k.stage[i] == s.tasks[t].stage[i] || (Holding(k.stage[i]) && Holding(s.tasks[t].stage[i]))
    ensures PipesOk(SetTask(s, t, k)) && Blocked(SetTask(s, t, k))
  {
    var s' := SetTask(s, t, k);
    forall p: nat | p < |s'.pipes|
      ensures Linked(s', p)
    {
      assert Linked(s, p);
      forall e: Entry
        ensures StageIs(s', p, e, false) <==> StageIs(s, p, e, false)
        ensures StageIs(s', p, e, true) <==> StageIs(s, p, e, true)
      {
        assert IsLink(s', p, e) <==> IsLink(s, p, e);
      }
    }
  }
}
