/** Steps and runs of the cascade: what each step may do, and that every step keeps the protocol
    invariant. */
module CascadeRun {
  import opened Pipes
  import opened Cascade

  /** Start: a task (or a graph node whose predecessors are done) enters its first link.
      Inline: the all-or-nothing probe succeeded.  Turn: a granted turn enters the next link.
      Unlock: the turn drops the task's lock.  Suspend: a guard's caller reaches its exchange.
      Then the body starts, the body and everything nested in it ends, and the links are released one
      by one.  Spawn adds new tasks. */
  datatype Label =
    | Start(t: nat)
    | Inline(t: nat)
    | Turn(t: nat, i: nat)
    | Unlock(t: nat, i: nat)
    | Suspend(t: nat)
    | Run(t: nat)
    | Settle(t: nat)
    | Advance(t: nat, i: nat)
    | Finish(t: nat)
    | Spawn(batch: seq<Task>)

  predicate IsDone(s: System, t: nat) {
    t < |s.tasks| && s.tasks[t].phase == Done
  }

  predicate PredsDone(s: System, k: Task) {
    forall q :: q in k.preds ==> IsDone(s, q)
  }

  predicate ChildrenDone(s: System, c: nat) {
    forall t: nat :: t < |s.tasks| && s.tasks[t].parent == Some(c) ==> IsDone(s, t)
  }

  predicate AllFree(s: System, k: Task) {
    forall i :: 0 <= i < |k.links| ==> k.links[i].pipe < |s.pipes| && Free(s.pipes[k.links[i].pipe], k.links[i].mode)
  }

  predicate Conflict(a: Task, b: Task) {
    exists x, y :: x in a.declared && y in b.declared && x.pipe == y.pipe && (x.mode == ReadWrite || y.mode == ReadWrite)
  }

  predicate Lends(k: Task) {
    exists d :: d in k.declared && d !in k.links
  }

  /** `d`, needed by a task with parent `parent`, is covered by a grant the parent's body holds. */
  predicate LentBy(s: System, parent: Option<nat>, d: Link) {
    && parent.Some? && parent.value < |s.tasks|
    && exists x :: x in s.tasks[parent.value].declared && x.pipe == d.pipe && Covers(x.mode, d.mode)
  }

  /** One new task of a batch whose first task gets number `base`. */
  predicate Born(s: System, base: nat, n: nat, k: Task) {
    && k.phase == Dormant && TaskInv(k) && KnownPipes(s, k.links)
    && k.batch == base
    && (forall q :: q in k.preds ==> base <= q < base + n)
    && Ascending(k.declared) && (forall l :: l in k.links ==> l in k.declared)
    && (forall d :: d in k.declared && d !in k.links ==> LentBy(s, k.parent, d))
    && (k.parent.Some? ==> k.parent.value < |s.tasks| && s.tasks[k.parent.value].phase == Active)
    && (k.parent.Some? && Lends(k) ==> ChildrenDone(s, k.parent.value))
  }

  /** A batch: one graph run (nodes ordered by the compiled edges, so conflicting nodes follow
      declaration order), or one async, access or guard on its own.  Lending requires that every
      earlier run nested in the same caller has settled. */
  ghost predicate BatchOk(s: System, batch: seq<Task>) {
    && (forall j :: 0 <= j < |batch| ==> Born(s, |s.tasks|, |batch|, batch[j]))
    && (forall i, j :: 0 <= i < j < |batch| ==> batch[i].parent == batch[j].parent)
    && (forall i, j :: 0 <= i < j < |batch| && Conflict(batch[i], batch[j]) ==> |s.tasks| + i in batch[j].preds)
  }

  ghost predicate Enabled(s: System, l: Label) {
    match l
    case Start(t) => t < |s.tasks| && s.tasks[t].phase == Dormant && PredsDone(s, s.tasks[t])
    case Inline(t) =>
      && t < |s.tasks| && s.tasks[t].phase == Dormant && s.tasks[t].gate.Locks?
      && PredsDone(s, s.tasks[t]) && AllFree(s, s.tasks[t])
    case Turn(t, i) => HasLink(s, t, i) && s.tasks[t].phase == Entering && s.tasks[t].stage[i] == Granted
    case Unlock(t, i) => HasLink(s, t, i) && s.tasks[t].phase == Entering && s.tasks[t].stage[i] == Cascaded
    case Suspend(t) =>
      t < |s.tasks| && s.tasks[t].phase == Entering && s.tasks[t].gate.Handshake? && !s.tasks[t].gate.suspended
    case Run(t) => t < |s.tasks| && s.tasks[t].phase == Ready
    case Settle(t) => t < |s.tasks| && s.tasks[t].phase == Active && ChildrenDone(s, t)
    case Advance(t, i) =>
      && HasLink(s, t, i) && s.tasks[t].phase == Settling && s.tasks[t].stage[i] == Fired
      && forall j :: 0 <= j < i ==> s.tasks[t].stage[j] == Retired
    case Finish(t) => t < |s.tasks| && s.tasks[t].phase == Settling && All(s.tasks[t].stage, Retired)
    case Spawn(batch) => BatchOk(s, batch)
  }

  /** Dispatch (or resume): the one place where `starts` grows. */
  function Dispatched(k: Task): Task {
    k.(phase := Ready, starts := k.starts + 1)
  }

  /** The task after its turn on link `i` entered the next link: a lock is still to be dropped, while a
      guard goes on by itself and, past its last link, makes its exchange. */
  function AfterTurn(k: Task, i: nat): Task
    requires i < |k.stage|
  {
    match k.gate
    case Locks(_) => k.(stage := k.stage[i := Cascaded])
    case Handshake(word, suspended) =>
      var k1 := k.(stage := k.stage[i := Fired]);
      if i + 1 < |k.stage| then k1
      else if word == 2 then Dispatched(k1.(gate := Handshake(1, suspended)))
      else k1.(gate := Handshake(1, suspended))
  }

  function AfterUnlock(k: Task, i: nat): Task
    requires i < |k.stage| && k.gate.Locks? && k.gate.left > 0
  {
    var left := k.gate.left - 1;
    var k1 := k.(stage := k.stage[i := Fired], gate := Locks(left));
    if left == 0 then Dispatched(k1) else k1
  }

  function AfterSuspend(k: Task): Task
    requires k.gate.Handshake?
  {
    var k1 := k.(gate := Handshake(2, true));
    if k.gate.word == 1 then Dispatched(k1) else k1
  }

  function AdmitAll(s: System, t: nat, i: nat): System
    requires t < |s.tasks| && i <= |s.tasks[t].links| == |s.tasks[t].stage| && KnownPipes(s, s.tasks[t].links)
    decreases |s.tasks[t].links| - i
  {
    if i == |s.tasks[t].links| then s else AdmitAll(AdmitInline(s, t, i), t, i + 1)
  }

  /** The task as the probe starts it. */
  function Probed(s: System, t: nat): System
    requires t < |s.tasks|
  {
    SetTask(s, t, s.tasks[t].(phase := Active, gate := Locks(0), starts := s.tasks[t].starts + 1))
  }

  function Apply(s: System, l: Label): System
    requires Inv(s) && Enabled(s, l)
  {
    match l
    case Start(t) =>
      if s.tasks[t].links == [] then SetTask(s, t, Dispatched(s.tasks[t]))
      else EnterLink(SetTask(s, t, s.tasks[t].(phase := Entering)), t, 0)
    case Inline(t) =>
      AdmitAll(Probed(s, t), t, 0)
    case Turn(t, i) =>
      var s1 := if i + 1 < |s.tasks[t].links| then EnterLink(s, t, i + 1) else s;
      SetTask(s1, t, AfterTurn(s1.tasks[t], i))
    case Unlock(t, i) =>
      assert TaskInv(s.tasks[t]);
      SetTask(s, t, AfterUnlock(s.tasks[t], i))
    case Suspend(t) => SetTask(s, t, AfterSuspend(s.tasks[t]))
    case Run(t) => SetTask(s, t, s.tasks[t].(phase := Active))
    case Settle(t) => SetTask(s, t, s.tasks[t].(phase := Settling))
    case Advance(t, i) => ReleaseLink(s, t, i)
    case Finish(t) => SetTask(s, t, s.tasks[t].(phase := Done))
    case Spawn(batch) => s.(tasks := s.tasks + batch)
  }

  // ---- counting locks ------------------------------------------------------------------------

  lemma {:induction false} UnfiredUpdate(st: seq<Stage>, i: nat, x: Stage)
    requires i < |st|
    ensures Unfired(st[i := x]) + (if st[i] == Fired then 0 else 1) == Unfired(st) + (if x == Fired then 0 else 1)
    decreases |st|
  {
    var n := |st| - 1;
    if i == n {
      assert st[i := x][..n] == st[..n];
    } else {
      assert st[i := x][..n] == st[..n][i := x];
      UnfiredUpdate(st[..n], i, x);
    }
  }

  lemma {:induction false} UnfiredSame(a: seq<Stage>, b: seq<Stage>)
    requires |a| == |b|
    requires forall i :: 0 <= i < |a| ==> (a[i] == Fired <==> b[i] == Fired)
    ensures Unfired(a) == Unfired(b)
    decreases |a|
  {
    if a != [] {
      UnfiredSame(a[..|a| - 1], b[..|b| - 1]);
    }
  }

  lemma {:induction false} UnfiredBounds(st: seq<Stage>)
    ensures Unfired(st) <= |st|
    ensures Unfired(st) == 0 <==> All(st, Fired)
    ensures (forall i :: 0 <= i < |st| ==> st[i] != Fired) ==> Unfired(st) == |st|
    decreases |st|
  {
    if st != [] {
      var n := |st| - 1;
      UnfiredBounds(st[..n]);
      if All(st, Fired) {
        assert All(st[..n], Fired);
      }
      if All(st[..n], Fired) && st[n] == Fired {
        forall i | 0 <= i < |st| ensures st[i] == Fired {
          if i < n { assert st[..n][i] == Fired; }
        }
      }
    }
  }

  // ---- each step keeps the acting task's invariant --------------------------------------------

  lemma ProgressedKeeps(a: Task, b: Task)
    requires TaskInv(a) && Progressed(a, b)
    ensures TaskInv(b)
  {
    UnfiredSame(a.stage, b.stage);
    if a.phase == Entering && a.gate.Handshake? {
      assert All(a.stage, Fired) <==> All(b.stage, Fired);
    }
  }

  lemma EnteredKeeps(k: Task, st: Stage)
    requires TaskInv(k) && k.phase == Dormant && k.stage != [] && (st == Granted || st == Queued)
    ensures TaskInv(k.(phase := Entering, stage := k.stage[0 := st]))
  {
    UnfiredBounds(k.stage[0 := st]);
  }

  /** The task with its next link, if any, entered. */
  function WithNext(k: Task, i: nat, next: Stage): Task
    requires i < |k.stage|
  {
    if i + 1 < |k.stage| then k.(stage := k.stage[i + 1 := next]) else k
  }

  /** The stages right after a turn on link `i` that has entered the next one keep the order of turns. */
  lemma TurnKeepsOrder(stage: seq<Stage>, i: nat, passed: Stage, next: Stage)
    requires InOrder(stage) && i < |stage| && stage[i] == Granted && Passed(passed) && (next == Granted || next == Queued)
    ensures i + 1 < |stage| ==> stage[i + 1] == Idle && InOrder(stage[i + 1 := next][i := passed])
    ensures i + 1 == |stage| ==> InOrder(stage[i := passed])
  {
    if i > 0 {
      assert Passed(stage[i - 1]) <==> stage[i - 1 + 1] != Idle;
    }
    if i + 1 < |stage| {
      assert Passed(stage[i]) <==> stage[i + 1] != Idle;
    }
  }

  lemma LockTurnKeeps(k: Task, i: nat, next: Stage)
    requires TaskInv(k) && k.phase == Entering && i < |k.stage| && k.stage[i] == Granted && k.gate.Locks?
    requires next == Granted || next == Queued
    ensures TaskInv(AfterTurn(WithNext(k, i, next), i))
  {
    var k1 := WithNext(k, i, next);
    TurnKeepsOrder(k.stage, i, Cascaded, next);
    UnfiredSame(k.stage, AfterTurn(k1, i).stage);
  }

  lemma GuardTurnKeeps(k: Task, i: nat, next: Stage)
    requires TaskInv(k) && k.phase == Entering && i < |k.stage| && k.stage[i] == Granted && k.gate.Handshake?
    requires next == Granted || next == Queued
    ensures TaskInv(AfterTurn(WithNext(k, i, next), i))
  {
    var k1 := WithNext(k, i, next);
    var k2 := AfterTurn(k1, i);
    TurnKeepsOrder(k.stage, i, Fired, next);
    if i + 1 < |k.stage| {
      assert k2.stage[i + 1] == next;
      assert !All(k2.stage, Fired) && !All(k.stage, Fired);
    } else {
      AllPassedButLast(k);
      assert All(k2.stage, Fired);
      assert k.stage[i] != Fired;
    }
  }

  /** The task right after its turn: `next` is the stage of the link just entered. */
  lemma TurnKeeps(k: Task, i: nat, next: Stage)
    requires TaskInv(k) && k.phase == Entering && i < |k.stage| && k.stage[i] == Granted
    requires next == Granted || next == Queued
    ensures TaskInv(AfterTurn(WithNext(k, i, next), i))
  {
    if k.gate.Locks? {
      LockTurnKeeps(k, i, next);
    } else {
      GuardTurnKeeps(k, i, next);
    }
  }

  /** In a guard whose last link is granted every earlier link has fired. */
  lemma AllPassedButLast(k: Task)
    requires TaskInv(k) && k.phase == Entering && k.stage[|k.stage| - 1] != Idle && k.gate.Handshake?
    ensures forall j :: 0 <= j < |k.stage| - 1 ==> k.stage[j] == Fired
  {
    var j := |k.stage| - 1;
    while j > 0
      invariant 0 <= j < |k.stage|
      invariant k.stage[j] != Idle
      invariant forall x :: j <= x < |k.stage| - 1 ==> k.stage[x] == Fired
    {
      j := j - 1;
      assert Passed(k.stage[j]);
    }
  }

  lemma UnlockKeeps(k: Task, i: nat)
    requires TaskInv(k) && k.phase == Entering && i < |k.stage| && k.stage[i] == Cascaded
    ensures k.gate.Locks? && k.gate.left > 0 && TaskInv(AfterUnlock(k, i))
  {
    UnfiredUpdate(k.stage, i, Fired);
    UnfiredBounds(k.stage[i := Fired]);
  }

  // ---- the whole step ------------------------------------------------------------------------

  predicate SameShape(a: Task, b: Task) {
    && a.declared == b.declared && a.links == b.links && |a.stage| == |b.stage|
    && a.parent == b.parent && a.batch == b.batch && a.preds == b.preds
  }

  function Actor(l: Label): nat
    requires !l.Spawn?
  {
    l.t
  }

  /** What a step did: the acting task changed within its shape, the others at most had waiting links
      admitted. */
  ghost predicate Effect(s: System, l: Label, s': System)
    requires !l.Spawn?
  {
    && |s'.tasks| == |s.tasks| && |s'.pipes| == |s.pipes| && Actor(l) < |s.tasks|
    && SameShape(s.tasks[Actor(l)], s'.tasks[Actor(l)])
    && TaskInv(s'.tasks[Actor(l)])
    && forall t: nat :: t < |s.tasks| && t != Actor(l) ==> Progressed(s.tasks[t], s'.tasks[t])
  }

  lemma EffectKeepsTasks(s: System, l: Label, s': System)
    requires TasksOk(s) && !l.Spawn? && Effect(s, l, s')
    ensures TasksOk(s')
  {
    forall t: nat | t < |s'.tasks|
      ensures TaskInv(s'.tasks[t]) && KnownPipes(s', s'.tasks[t].links)
    {
      if t != Actor(l) {
        ProgressedKeeps(s.tasks[t], s'.tasks[t]);
      }
    }
  }

  lemma StartStep(s: System, t: nat)
    requires Inv(s) && Enabled(s, Start(t))
    ensures Inv(Apply(s, Start(t))) && Effect(s, Start(t), Apply(s, Start(t)))
    ensures Apply(s, Start(t)).tasks[t].phase == (if s.tasks[t].links == [] then Ready else Entering)
  {
    var k := s.tasks[t];
    assert TaskInv(k) && KnownPipes(s, k.links);
    if k.links == [] {
      SetTaskKeeps(s, t, Dispatched(k));
    } else {
      var k1 := k.(phase := Entering);
      SetTaskKeeps(s, t, k1);
      var s1 := SetTask(s, t, k1);
      EnterKeeps(s1, t, 0);
      EnteredKeeps(k, if Free(PipeFor(s1, t, 0), k.links[0].mode) then Granted else Queued);
    }
    EffectKeepsTasks(s, Start(t), Apply(s, Start(t)));
  }

  /** The probe marks every link of the task as fired and touches no other task. */
  lemma {:induction false} AdmitAllFires(s: System, t: nat, i: nat)
    requires t < |s.tasks| && i <= |s.tasks[t].links| == |s.tasks[t].stage| && KnownPipes(s, s.tasks[t].links)
    ensures |AdmitAll(s, t, i).pipes| == |s.pipes| && |AdmitAll(s, t, i).tasks| == |s.tasks|
    ensures var k := AdmitAll(s, t, i).tasks[t];
      && |k.stage| == |s.tasks[t].stage| && k == s.tasks[t].(stage := k.stage)
      && (forall j :: 0 <= j < i ==> k.stage[j] == s.tasks[t].stage[j])
      && (forall j :: i <= j < |k.stage| ==> k.stage[j] == Fired)
    ensures forall u: nat :: u < |s.tasks| && u != t ==> AdmitAll(s, t, i).tasks[u] == s.tasks[u]
    decreases |s.tasks[t].links| - i
  {
    if i < |s.tasks[t].links| {
      AdmitAllFires(AdmitInline(s, t, i), t, i + 1);
    }
  }

  lemma {:induction false} AdmitAllKeeps(s: System, t: nat, i: nat)
    requires t < |s.tasks| && i <= |s.tasks[t].links| == |s.tasks[t].stage|
    requires KnownPipes(s, s.tasks[t].links) && Ascending(s.tasks[t].links)
    requires PipesOk(s) && Blocked(s)
    requires forall j :: i <= j < |s.tasks[t].stage| ==> s.tasks[t].stage[j] == Idle
    requires forall j :: i <= j < |s.tasks[t].links| ==>
      Free(s.pipes[s.tasks[t].links[j].pipe], s.tasks[t].links[j].mode)
    ensures PipesOk(AdmitAll(s, t, i)) && Blocked(AdmitAll(s, t, i))
    decreases |s.tasks[t].links| - i
  {
    if i < |s.tasks[t].links| {
      assert HasLink(s, t, i);
      EnterKeeps(s, t, i);
      AdmitAllKeeps(AdmitInline(s, t, i), t, i + 1);
    }
  }

  /** From link `i` on, every link's pipe has been entered as the cascade would, and no other pipe has
      changed. */
  predicate EnteredFrom(before: seq<PipeState>, after: seq<PipeState>, t: nat, links: seq<Link>, i: nat) {
    && |after| == |before| && (forall j :: i <= j < |links| ==> links[j].pipe < |before|)
    && (forall j :: i <= j < |links| ==>
          after[links[j].pipe] == Enter(before[links[j].pipe], Entry(t, j, links[j].mode)))
    && (forall p :: 0 <= p < |before| && (forall j :: i <= j < |links| ==> links[j].pipe != p) ==> after[p] == before[p])
  }

  lemma {:induction false} AdmitAllEnters(s: System, t: nat, i: nat)
    requires t < |s.tasks| && i <= |s.tasks[t].links| == |s.tasks[t].stage|
    requires KnownPipes(s, s.tasks[t].links) && Ascending(s.tasks[t].links)
    ensures EnteredFrom(s.pipes, AdmitAll(s, t, i).pipes, t, s.tasks[t].links, i)
    decreases |s.tasks[t].links| - i
  {
    if i < |s.tasks[t].links| {
      assert HasLink(s, t, i);
      AdmitAllEnters(AdmitInline(s, t, i), t, i + 1);
      EnterOneMore(s.pipes, AdmitAll(s, t, i).pipes, t, s.tasks[t].links, i);
    }
  }

  lemma EnterOneMore(before: seq<PipeState>, after: seq<PipeState>, t: nat, links: seq<Link>, i: nat)
    requires i < |links| && Ascending(links) && links[i].pipe < |before|
    requires EnteredFrom(before[links[i].pipe := Enter(before[links[i].pipe], Entry(t, i, links[i].mode))], after, t, links, i + 1)
    ensures EnteredFrom(before, after, t, links, i)
  {
    assert forall j :: i < j < |links| ==> links[i].pipe < links[j].pipe;
  }

  /** Nobody waits for the object, nobody writes it, and to write it nobody reads it either. */
  predicate Unoccupied(s: System, l: Link) {
    && l.pipe < |s.pipes| && s.pipes[l.pipe].queue == [] && s.pipes[l.pipe].writing == {}
    && (l.mode == ReadWrite ==> s.pipes[l.pipe].reading == {})
  }

  lemma UnoccupiedIsFree(s: System, l: Link)
    requires Inv(s) && l.pipe < |s.pipes|
    ensures Unoccupied(s, l) <==> Free(s.pipes[l.pipe], l.mode)
  {
    assert Sound(s.pipes[l.pipe]);
  }

  /** The inline probe succeeds exactly when every object is unoccupied. */
  lemma ProbeIsExact(s: System, t: nat)
    requires Inv(s) && t < |s.tasks| && s.tasks[t].phase == Dormant && s.tasks[t].gate.Locks? && PredsDone(s, s.tasks[t])
    ensures Enabled(s, Inline(t)) <==> forall i :: 0 <= i < |s.tasks[t].links| ==> Unoccupied(s, s.tasks[t].links[i])
  {
    var links := s.tasks[t].links;
    assert KnownPipes(s, links);
    forall i | 0 <= i < |links| ensures Unoccupied(s, links[i]) <==> Free(s.pipes[links[i].pipe], links[i].mode) {
      UnoccupiedIsFree(s, links[i]);
    }
  }

  lemma ProbedLinks(s: System, t: nat)
    requires Inv(s) && t < |s.tasks|
    ensures var k := Probed(s, t).tasks[t];
      k.links == s.tasks[t].links && |k.links| == |k.stage| && KnownPipes(Probed(s, t), k.links) && Ascending(k.links)
  {
    assert TaskInv(s.tasks[t]) && KnownPipes(s, s.tasks[t].links);
  }

  /** A successful probe enters each of the task's pipes, as the cascade would, and no other. */
  lemma ProbeEntersAll(s: System, t: nat)
    requires Inv(s) && Enabled(s, Inline(t))
    ensures EnteredFrom(s.pipes, Apply(s, Inline(t)).pipes, t, s.tasks[t].links, 0)
  {
    ProbedLinks(s, t);
    AdmitAllEnters(Probed(s, t), t, 0);
    assert Apply(s, Inline(t)).pipes == AdmitAll(Probed(s, t), t, 0).pipes;
  }

  lemma InlineTask(k: Task, k': Task)
    requires TaskInv(k) && k.phase == Dormant && |k'.stage| == |k.stage| && All(k'.stage, Fired)
    requires k' == k.(phase := Active, gate := Locks(0), starts := k.starts + 1, stage := k'.stage)
    ensures TaskInv(k') && SameShape(k, k')
  {
  }

  /** What a successful probe does to the system. */
  lemma InlineApplies(s: System, t: nat)
    requires Inv(s) && Enabled(s, Inline(t))
    ensures var s' := Apply(s, Inline(t));
      && PipesOk(s') && Blocked(s') && |s'.pipes| == |s.pipes| && |s'.tasks| == |s.tasks|
      && TaskInv(s'.tasks[t]) && SameShape(s.tasks[t], s'.tasks[t])
      && s'.tasks[t].phase == Active && s'.tasks[t].gate == Locks(0)
      && forall u: nat :: u < |s.tasks| && u != t ==> s'.tasks[u] == s.tasks[u]
  {
    var k := s.tasks[t];
    assert TaskInv(k) && KnownPipes(s, k.links);
    var k1 := k.(phase := Active, gate := Locks(0), starts := k.starts + 1);
    SetTaskKeeps(s, t, k1);
    var s1 := SetTask(s, t, k1);
    assert s1.tasks[t] == k1 && All(k1.stage, Idle);
    AdmitAllFires(s1, t, 0);
    InlineTask(k, AdmitAll(s1, t, 0).tasks[t]);
    assert PipesOk(AdmitAll(s1, t, 0)) && Blocked(AdmitAll(s1, t, 0)) by {
      AdmitAllKeeps(s1, t, 0);
    }
  }

  lemma InlineStep(s: System, t: nat)
    requires Inv(s) && Enabled(s, Inline(t))
    ensures Inv(Apply(s, Inline(t))) && Effect(s, Inline(t), Apply(s, Inline(t)))
    ensures Apply(s, Inline(t)).tasks[t].phase == Active && Apply(s, Inline(t)).tasks[t].gate == Locks(0)
  {
    InlineApplies(s, t);
    EffectKeepsTasks(s, Inline(t), Apply(s, Inline(t)));
  }

  /** Entering the link after `i`, when the turn on `i` has been granted. */
  lemma EnterNext(s: System, t: nat, i: nat)
    requires Inv(s) && Enabled(s, Turn(t, i)) && i + 1 < |s.tasks[t].links|
    ensures HasLink(s, t, i + 1)
    ensures var s1 := EnterLink(s, t, i + 1); var next := s1.tasks[t].stage[i + 1];
      && PipesOk(s1) && Blocked(s1) && (next == Granted || next == Queued)
      && s1.tasks == s.tasks[t := s.tasks[t].(stage := s.tasks[t].stage[i + 1 := next])] && |s1.pipes| == |s.pipes|
  {
    var k := s.tasks[t];
    assert TaskInv(k) && KnownPipes(s, k.links);
    assert Passed(k.stage[i]) <==> k.stage[i + 1] != Idle;
    EnterKeeps(s, t, i + 1);
  }

  /** What a turn does to the system: the pipes stay sound and unlocked, and only its task changes. */
  lemma TurnApplies(s: System, t: nat, i: nat) returns (next: Stage)
    requires Inv(s) && Enabled(s, Turn(t, i))
    ensures next == Granted || next == Queued
    ensures var s' := Apply(s, Turn(t, i));
      && PipesOk(s') && Blocked(s') && |s'.pipes| == |s.pipes|
      && s'.tasks == s.tasks[t := AfterTurn(WithNext(s.tasks[t], i, next), i)]
  {
    var k := s.tasks[t];
    assert TaskInv(k);
    next := Queued;
    var s1 := s;
    if i + 1 < |k.links| {
      EnterNext(s, t, i);
      s1 := EnterLink(s, t, i + 1);
      next := s1.tasks[t].stage[i + 1];
    }
    assert s1.tasks[t] == WithNext(k, i, next);
    SetTaskKeeps(s1, t, AfterTurn(s1.tasks[t], i));
  }

  lemma TurnStep(s: System, t: nat, i: nat)
    requires Inv(s) && Enabled(s, Turn(t, i))
    ensures Inv(Apply(s, Turn(t, i))) && Effect(s, Turn(t, i), Apply(s, Turn(t, i)))
    ensures Apply(s, Turn(t, i)).tasks[t].phase in {Entering, Ready}
  {
    var next := TurnApplies(s, t, i);
    assert TaskInv(s.tasks[t]);
    TurnKeeps(s.tasks[t], i, next);
    EffectKeepsTasks(s, Turn(t, i), Apply(s, Turn(t, i)));
  }

  lemma UnlockStep(s: System, t: nat, i: nat)
    requires Inv(s) && Enabled(s, Unlock(t, i))
    ensures Inv(Apply(s, Unlock(t, i))) && Effect(s, Unlock(t, i), Apply(s, Unlock(t, i)))
    ensures Apply(s, Unlock(t, i)).tasks[t].phase in {Entering, Ready}
  {
    UnlockKeeps(s.tasks[t], i);
    SetTaskKeeps(s, t, AfterUnlock(s.tasks[t], i));
    EffectKeepsTasks(s, Unlock(t, i), Apply(s, Unlock(t, i)));
  }

  lemma AdvanceStep(s: System, t: nat, i: nat)
    requires Inv(s) && Enabled(s, Advance(t, i))
    ensures Inv(Apply(s, Advance(t, i))) && Effect(s, Advance(t, i), Apply(s, Advance(t, i)))
    ensures Apply(s, Advance(t, i)).tasks[t] == s.tasks[t].(stage := s.tasks[t].stage[i := Retired])
  {
    ReleaseKeeps(s, t, i);
    var k := s.tasks[t];
    var k1 := k.(stage := k.stage[i := Retired]);
    assert TaskInv(k);
    assert TaskInv(k1);
    var s' := Apply(s, Advance(t, i));
    assert Progressed(k1, s'.tasks[t]);
    assert s'.tasks[t].stage == k1.stage;
    EffectKeepsTasks(s, Advance(t, i), s');
  }

  predicate PhaseLabel(l: Label) {
    l.Suspend? || l.Run? || l.Settle? || l.Finish?
  }

  lemma PhaseStep(s: System, l: Label)
    requires Inv(s) && PhaseLabel(l) && Enabled(s, l)
    ensures Inv(Apply(s, l)) && Effect(s, l, Apply(s, l))
    ensures var f := Apply(s, l).tasks[l.t].phase;
      match l case Suspend(_) => f in {Entering, Ready} case Run(_) => f == Active
              case Settle(_) => f == Settling case _ => f == Done
  {
    var k := s.tasks[l.t];
    assert TaskInv(k);
    SetTaskKeeps(s, l.t, Apply(s, l).tasks[l.t]);
    EffectKeepsTasks(s, l, Apply(s, l));
  }

  lemma SpawnStep(s: System, batch: seq<Task>)
    requires Inv(s) && Enabled(s, Spawn(batch))
    ensures Inv(Apply(s, Spawn(batch)))
  {
    var s' := Apply(s, Spawn(batch));
    forall t: nat | t < |s'.tasks|
      ensures TaskInv(s'.tasks[t]) && KnownPipes(s', s'.tasks[t].links)
      ensures t >= |s.tasks| ==> All(s'.tasks[t].stage, Idle)
    {
      if t >= |s.tasks| {
        assert Born(s, |s.tasks|, |batch|, batch[t - |s.tasks|]);
      }
    }
    forall p: nat | p < |s'.pipes|
      ensures Linked(s', p)
    {
      assert Linked(s, p);
      forall e: Entry
        ensures StageIs(s', p, e, false) <==> StageIs(s, p, e, false)
        ensures StageIs(s', p, e, true) <==> StageIs(s, p, e, true)
      {
        if e.task < |s.tasks| {
          assert IsLink(s', p, e) <==> IsLink(s, p, e);
        }
      }
    }
  }

  /** Every step keeps the protocol invariant, and moves nothing but the acting task and links that
      were waiting. */
  lemma StepKeepsInv(s: System, l: Label)
    requires Inv(s) && Enabled(s, l)
    ensures Inv(Apply(s, l))
    ensures !l.Spawn? ==> Effect(s, l, Apply(s, l))
  {
    match l
    case Start(t) => StartStep(s, t);
    case Inline(t) => InlineStep(s, t);
    case Turn(t, i) => TurnStep(s, t, i);
    case Unlock(t, i) => UnlockStep(s, t, i);
    case Advance(t, i) => AdvanceStep(s, t, i);
    case Spawn(batch) => SpawnStep(s, batch);
    case _ => PhaseStep(s, l);
  }
}
