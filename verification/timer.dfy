/** The deadline keeper (`Timer_service`, src/timer.cpp): a priority queue of armed waits, a timer thread
    that fires what is due, cancellation from any thread, and shutdown.

    Each mutex section is one step.  The blocks a section took leave the mutex in somebody's hands, the
    timer thread's list or a canceller's local, and reach the scheduler in later steps of their own; any
    other step may come in between. */
module Timer {

  /** How a wait ended. */
  datatype Ending = Pending | Fired(at: int) | Cancelled | Dropped

  /** One armed wait: the two flags of the source, then as history its deadline, its ending, and whether
      it was armed between a shutdown's mutex section and the end of its thread. */
  datatype Wait = Wait(live: bool, delivered: bool, deadline: int, ending: Ending, late: bool)

  /** Waits are numbered in the order they were armed, which is also their serial. */
  datatype Entry = Entry(deadline: int, serial: nat)

  /** `thread` is whether the timer thread can be joined.  `fire` is the timer thread's list of blocks it
      took and has not handed over, `cancelling` the blocks cancellers took and have not; `handed` is
      history, every call that gave a block to the scheduler. */
  datatype State = State(
    heap: set<Entry>,
    waits: seq<Wait>,
    live: int,
    thread: bool,
    stopping: bool,
    externalWaits: int,
    fire: seq<nat>,
    cancelling: seq<nat>,
    handed: seq<nat>)

  const FRESH := State({}, [], 0, false, false, 0, [], [], [])

  predicate Before(a: Entry, b: Entry) {
    a.deadline < b.deadline || (a.deadline == b.deadline && a.serial < b.serial)
  }

  predicate Least(h: set<Entry>, e: Entry) {
    e in h && forall x :: x in h ==> x == e || Before(e, x)
  }

  // ---- the steps ---------------------------------------------------------------------------------

  /** Arm and Cancel are calls of any thread; Tick is one round of the timer thread; HandFired and
      HandCancelled give one taken block to the scheduler; Stop is a shutdown's mutex section and Join
      the end of the thread it waits for. */
  datatype Label =
    | Arm(deadline: int) | Cancel(serial: nat) | Tick(now: int) | HandFired | HandCancelled(i: nat) | Stop(checkArmed: bool) | Join

  function CancelledNow(w: Wait): Wait {
    w.(live := false, delivered := true, ending := Cancelled)
  }

  function FiredAt(w: Wait, now: int): Wait {
    w.(live := false, delivered := true, ending := Fired(now))
  }

  function DroppedNow(w: Wait): Wait {
    w.(live := false, ending := Dropped)
  }

  predicate Due(w: Wait, now: int) {
    w.live && w.deadline <= now
  }

  /** The fired waits, in order of deadline and, among equal deadlines, of arming. */
  predicate InOrder(fired: seq<nat>, waits: seq<Wait>) {
    && (forall i :: 0 <= i < |fired| ==> fired[i] < |waits|)
    && (forall i, j :: 0 <= i < j < |fired| ==>
          Before(Entry(waits[fired[i]].deadline, fired[i]), Entry(waits[fired[j]].deadline, fired[j])))
  }

  /** Exactly the listed waits were marked as fired. */
  predicate Updated(before: seq<Wait>, after: seq<Wait>, fired: seq<nat>, now: int) {
    && |after| == |before|
    && forall s: nat :: s < |after| ==> after[s] == if s in fired then FiredAt(before[s], now) else before[s]
  }

  /** `fired` are exactly the live waits due by `now`, in order. */
  ghost predicate AreDue(fired: seq<nat>, waits: seq<Wait>, now: int) {
    InOrder(fired, waits) && forall s: nat :: s in fired <==> s < |waits| && Due(waits[s], now)
  }

  predicate NoneDue(waits: seq<Wait>, now: int) {
    forall s :: 0 <= s < |waits| ==> !Due(waits[s], now)
  }

  function Remaining(h: set<Entry>, now: int): set<Entry> {
    set e | e in h && e.deadline > now
  }

  function Swept(waits: seq<Wait>): seq<Wait> {
    seq(|waits|, s requires 0 <= s < |waits| => if waits[s].live then DroppedNow(waits[s]) else waits[s])
  }

  function Armed(s: State, deadline: int): State {
    var joining := s.thread && s.stopping;
    s.(heap := s.heap + {Entry(deadline, |s.waits|)}, waits := s.waits + [Wait(true, false, deadline, Pending, joining)],
       live := s.live + 1, externalWaits := s.externalWaits + 1, thread := true, stopping := joining)
  }

  function Without(list: seq<nat>, i: nat): seq<nat>
    requires i < |list|
  {
    list[..i] + list[i + 1..]
  }

  ghost predicate Step(s: State, l: Label, s': State) {
    match l
    case Arm(deadline) => s' == Armed(s, deadline)
    case Cancel(serial) =>
      && serial < |s.waits|
      && s' == (if s.waits[serial].live then
                  s.(waits := s.waits[serial := CancelledNow(s.waits[serial])], live := s.live - 1,
                     cancelling := s.cancelling + [serial])
                else s)
    case Tick(now) =>
      && s.thread && !s.stopping && s.fire == []
      && AreDue(s'.fire, s.waits, now) && Updated(s.waits, s'.waits, s'.fire, now)
      && s' == s.(heap := Remaining(s.heap, now), waits := s'.waits, live := s.live - |s'.fire|, fire := s'.fire)
    case HandFired =>
      s.fire != [] && s' == s.(fire := s.fire[1..], handed := s.handed + [s.fire[0]], externalWaits := s.externalWaits - 1)
    case HandCancelled(i) =>
      && i < |s.cancelling|
      && s' == s.(cancelling := Without(s.cancelling, i), handed := s.handed + [s.cancelling[i]],
                  externalWaits := s.externalWaits - 1)
    case Stop(checkArmed) =>
      && s.thread && !s.stopping && !(checkArmed && s.live != 0)
      && s' == s.(heap := {}, waits := Swept(s.waits), live := 0, stopping := true, externalWaits := s.externalWaits - s.live)
    case Join => s.thread && s.stopping && s.fire == [] && s' == s.(thread := false)
  }

  // ---- counting ----------------------------------------------------------------------------------

  function Count(waits: seq<Wait>): nat {
    if waits == [] then 0 else Count(waits[..|waits| - 1]) + (if waits[|waits| - 1].live then 1 else 0)
  }

  lemma {:induction false} CountUpdate(waits: seq<Wait>, i: nat, w: Wait)
    requires i < |waits|
    ensures Count(waits[i := w]) + (if waits[i].live then 1 else 0) == Count(waits) + (if w.live then 1 else 0)
    decreases |waits|
  {
    var n := |waits| - 1;
    if i == n {
      assert waits[i := w][..n] == waits[..n];
    } else {
      assert waits[i := w][..n] == waits[..n][i := w];
      CountUpdate(waits[..n], i, w);
    }
  }

  lemma CountOneMore(waits: seq<Wait>, w: Wait)
    ensures Count(waits + [w]) == Count(waits) + (if w.live then 1 else 0)
  {
    assert (waits + [w])[..|waits|] == waits;
  }

  lemma {:induction false} NoneLive(waits: seq<Wait>)
    ensures Count(waits) == 0 <==> forall s :: 0 <= s < |waits| ==> !waits[s].live
    decreases |waits|
  {
    if waits != [] {
      NoneLive(waits[..|waits| - 1]);
      assert forall i :: 0 <= i < |waits| - 1 ==> waits[..|waits| - 1][i] == waits[i];
    }
  }

  predicate Different(list: seq<nat>) {
    forall i, j :: 0 <= i < j < |list| ==> list[i] != list[j]
  }

  lemma {:induction false} CountFired(before: seq<Wait>, after: seq<Wait>, fired: seq<nat>, now: int)
    requires Updated(before, after, fired, now) && Different(fired)
    requires forall i :: 0 <= i < |fired| ==> fired[i] < |before| && before[fired[i]].live
    ensures Count(after) == Count(before) - |fired|
    decreases |fired|
  {
    if fired == [] {
      assert after == before;
    } else {
      var n := |fired| - 1;
      var x := fired[n];
      var rest := fired[..n];
      var middle := after[x := before[x]];
      assert x in fired && x !in rest;
      forall s: nat | s < |after| ensures middle[s] == if s in rest then FiredAt(before[s], now) else before[s] {
        assert s in fired <==> s in rest || s == x;
      }
      CountUpdate(after, x, before[x]);
      CountFired(before, middle, rest, now);
    }
  }

  /** How often a block is in a list. */
  function Times(list: seq<nat>, s: nat): nat {
    multiset(list)[s]
  }

  lemma TimesMore(list: seq<nat>, x: nat, s: nat)
    ensures Times(list + [x], s) == Times(list, s) + (if s == x then 1 else 0)
  {
  }

  lemma TimesWithout(list: seq<nat>, i: nat, s: nat)
    requires i < |list|
    ensures Times(Without(list, i), s) + (if s == list[i] then 1 else 0) == Times(list, s)
  {
    assert list == list[..i] + ([list[i]] + list[i + 1..]);
  }

  lemma {:induction false} TimesDifferent(list: seq<nat>, s: nat)
    requires Different(list)
    ensures Times(list, s) == if s in list then 1 else 0
    decreases |list|
  {
    if list != [] {
      var n := |list| - 1;
      assert list == list[..n] + [list[n]];
      TimesMore(list[..n], list[n], s);
      TimesDifferent(list[..n], s);
    }
  }

  // ---- the invariant -----------------------------------------------------------------------------

  predicate WaitOk(w: Wait) {
    && (w.live <==> w.ending == Pending)
    && (w.delivered <==> w.ending.Fired? || w.ending == Cancelled)
    && (w.ending.Fired? ==> w.ending.at >= w.deadline)
  }

  predicate WaitsOk(waits: seq<Wait>) {
    forall s :: 0 <= s < |waits| ==> WaitOk(waits[s])
  }

  /** Queue and waits are in step; entries of waits that have ended may linger in the queue. */
  predicate HeapOk(h: set<Entry>, waits: seq<Wait>) {
    && (forall e :: e in h ==> e.serial < |waits| && e.deadline == waits[e.serial].deadline)
    && (forall s :: 0 <= s < |waits| && waits[s].live ==> Entry(waits[s].deadline, s) in h)
  }

  /** Each delivered wait's block is in exactly one place, once: on the timer thread's list, with a
      canceller, or with the scheduler.  No other block is in any of them. */
  ghost predicate BooksOk(s: State) {
    forall k: nat :: Booked(s, k)
  }

  function InHands(s: State, k: nat): nat {
    Times(s.handed, k) + Times(s.fire, k) + Times(s.cancelling, k)
  }

  /** While there is no thread, or it is on its way out, only late waits are armed. */
  predicate Served(s: State) {
    !s.thread || s.stopping ==> forall k :: 0 <= k < |s.waits| && s.waits[k].live ==> s.waits[k].late
  }

  ghost predicate Ok(s: State) {
    && WaitsOk(s.waits) && HeapOk(s.heap, s.waits) && BooksOk(s) && Served(s)
    && s.live == Count(s.waits)
    && s.externalWaits == s.live + |s.fire| + |s.cancelling|
  }

  ghost predicate Booked(s: State, k: nat) {
    InHands(s, k) == if k < |s.waits| && s.waits[k].delivered then 1 else 0
  }

  lemma ArmKeepsQueue(s: State, deadline: int)
    requires WaitsOk(s.waits) && HeapOk(s.heap, s.waits)
    ensures WaitsOk(Armed(s, deadline).waits) && HeapOk(Armed(s, deadline).heap, Armed(s, deadline).waits)
  {
    var s' := Armed(s, deadline);
    assert forall k :: 0 <= k < |s.waits| ==> s'.waits[k] == s.waits[k];
  }

  lemma ArmKeeps(s: State, deadline: int)
    requires Ok(s)
    ensures Ok(Armed(s, deadline))
  {
    var s' := Armed(s, deadline);
    ArmKeepsQueue(s, deadline);
    CountOneMore(s.waits, s'.waits[|s.waits|]);
    forall k: nat ensures Booked(s', k) {
      assert Booked(s, k);
    }
  }

  lemma CancelKeeps(s: State, serial: nat, s': State)
    requires Ok(s) && Step(s, Cancel(serial), s')
    ensures Ok(s')
  {
    if s.waits[serial].live {
      CountUpdate(s.waits, serial, CancelledNow(s.waits[serial]));
      assert WaitOk(s.waits[serial]);
      forall k: nat ensures Booked(s', k) {
        assert Booked(s, k);
        TimesMore(s.cancelling, serial, k);
      }
    }
  }

  lemma OrderedAreDifferent(fired: seq<nat>, waits: seq<Wait>)
    requires InOrder(fired, waits)
    ensures Different(fired)
  {
    forall i, j | 0 <= i < j < |fired| ensures fired[i] != fired[j] {
      assert Before(Entry(waits[fired[i]].deadline, fired[i]), Entry(waits[fired[j]].deadline, fired[j]));
    }
  }

  lemma TickKeeps(s: State, now: int, s': State)
    requires Ok(s) && Step(s, Tick(now), s')
    ensures Ok(s') && NoneDue(s'.waits, now)
  {
    OrderedAreDifferent(s'.fire, s.waits);
    forall i | 0 <= i < |s'.fire| ensures s'.fire[i] < |s.waits| && s.waits[s'.fire[i]].live {
      assert s'.fire[i] in s'.fire;
    }
    CountFired(s.waits, s'.waits, s'.fire, now);
    forall k: nat ensures Booked(s', k) {
      assert Booked(s, k);
      assert k < |s.waits| ==> WaitOk(s.waits[k]);
      TimesDifferent(s'.fire, k);
    }
    forall k | 0 <= k < |s'.waits|
      ensures WaitOk(s'.waits[k]) && (s'.waits[k].live ==> Entry(s'.waits[k].deadline, k) in s'.heap && s'.waits[k].deadline > now)
    {
      assert WaitOk(s.waits[k]);
    }
  }

  lemma HandKeeps(s: State, l: Label, s': State)
    requires Ok(s) && Step(s, l, s') && (l.HandFired? || l.HandCancelled?)
    ensures Ok(s')
  {
    forall k: nat ensures Booked(s', k) {
      assert Booked(s, k);
      HandKeepsBlocks(s, l, s', k);
    }
  }

  /** Handing over moves a block from its holder to the scheduler. */
  lemma HandKeepsBlocks(s: State, l: Label, s': State, k: nat)
    requires Step(s, l, s') && (l.HandFired? || l.HandCancelled?)
    ensures InHands(s', k) == InHands(s, k)
  {
    if l.HandFired? {
      TimesWithout(s.fire, 0, k);
      assert Without(s.fire, 0) == s.fire[1..];
      TimesMore(s.handed, s.fire[0], k);
    } else {
      TimesWithout(s.cancelling, l.i, k);
      TimesMore(s.handed, s.cancelling[l.i], k);
    }
  }

  lemma StopKeeps(s: State, checkArmed: bool, s': State)
    requires Ok(s) && Step(s, Stop(checkArmed), s')
    ensures Ok(s')
  {
    NoneLive(s'.waits);
    forall k | 0 <= k < |s.waits| ensures WaitOk(s'.waits[k]) && s'.waits[k].delivered == s.waits[k].delivered {
      assert WaitOk(s.waits[k]);
    }
    forall k: nat ensures Booked(s', k) {
      assert Booked(s, k);
    }
  }

  lemma JoinKeeps(s: State, s': State)
    requires Ok(s) && Step(s, Join, s')
    ensures Ok(s')
  {
    forall k: nat ensures Booked(s', k) {
      assert Booked(s, k);
    }
  }

  lemma StepKeeps(s: State, l: Label, s': State)
    requires Ok(s) && Step(s, l, s')
    ensures Ok(s')
  {
    match l
    case Arm(deadline) => ArmKeeps(s, deadline);
    case Cancel(serial) => CancelKeeps(s, serial, s');
    case Tick(now) => TickKeeps(s, now, s');
    case Stop(checkArmed) => StopKeeps(s, checkArmed, s');
    case Join => JoinKeeps(s, s');
    case _ => HandKeeps(s, l, s');
  }

  // ---- every run ---------------------------------------------------------------------------------

  ghost predicate IsRun(states: seq<State>, labels: seq<Label>) {
    && |states| == |labels| + 1 && states[0] == FRESH
    && forall k :: 0 <= k < |labels| ==> Step(states[k], labels[k], states[k + 1])
  }

  lemma {:induction false} RunKeeps(states: seq<State>, labels: seq<Label>, t: nat)
    requires IsRun(states, labels) && t < |states|
    ensures Ok(states[t])
    decreases t
  {
    if t > 0 {
      RunKeeps(states, labels, t - 1);
      assert Step(states[t - 1], labels[t - 1], states[t]);
      StepKeeps(states[t - 1], labels[t - 1], states[t]);
    }
  }

  /** In every state of every run a block has been handed over at most once, and once exactly when its
      wait ended fired or cancelled and nobody holds the block any more; a dropped wait's never is.  A
      fired wait fired at or after its deadline.  The counters are exact: `live` counts the live waits,
      and the external waits are those and the deliveries in progress. */
  lemma HandedOverOnce(states: seq<State>, labels: seq<Label>, t: nat, k: nat)
    requires IsRun(states, labels) && t < |states| && k < |states[t].waits|
    ensures var s := states[t]; var w := s.waits[k];
      && Times(s.handed, k) <= 1
      && (Times(s.handed, k) == 1 <==> (w.ending.Fired? || w.ending == Cancelled) && k !in s.fire && k !in s.cancelling)
      && (w.ending.Fired? ==> w.ending.at >= w.deadline)
      && s.live == Count(s.waits) && s.externalWaits == s.live + |s.fire| + |s.cancelling|
  {
    RunKeeps(states, labels, t);
    var s := states[t];
    assert WaitOk(s.waits[k]);
    assert Booked(s, k);
    assert k in s.fire <==> Times(s.fire, k) > 0;
    assert k in s.cancelling <==> Times(s.cancelling, k) > 0;
  }

  lemma StepKeepsEndings(s: State, l: Label, s': State, k: nat)
    requires Step(s, l, s') && k < |s.waits| && WaitOk(s.waits[k])
    ensures k < |s'.waits| && s'.waits[k].deadline == s.waits[k].deadline
    ensures s.waits[k].ending != Pending ==> s'.waits[k].ending == s.waits[k].ending
  {
  }

  /** A wait that has ended keeps its one ending for the rest of the run. */
  lemma {:induction false} EndingIsFinal(states: seq<State>, labels: seq<Label>, i: nat, j: nat, k: nat)
    requires IsRun(states, labels) && i <= j < |states| && k < |states[i].waits|
    ensures k < |states[j].waits| && states[j].waits[k].deadline == states[i].waits[k].deadline
    ensures states[i].waits[k].ending != Pending ==> states[j].waits[k].ending == states[i].waits[k].ending
    decreases j
  {
    if i < j {
      EndingIsFinal(states, labels, i, j - 1, k);
      RunKeeps(states, labels, j - 1);
      assert Step(states[j - 1], labels[j - 1], states[j]);
      assert WaitOk(states[j - 1].waits[k]);
      StepKeepsEndings(states[j - 1], labels[j - 1], states[j], k);
    }
  }

  /** What a step does to a live wait: only its own cancel cancels it, only a round at or after its deadline
      fires it, only a shutdown drops it, and each of these does.  Whoever ended it has its block. */
  lemma EndsExactlyWhen(states: seq<State>, labels: seq<Label>, t: nat, k: nat)
    requires IsRun(states, labels) && t < |labels| && k < |states[t].waits| && states[t].waits[k].live
    ensures k < |states[t + 1].waits|
    ensures var w, s' := states[t].waits[k], states[t + 1];
      match labels[t]
      case Cancel(serial) => if serial == k then s'.waits[k].ending == Cancelled && k in s'.cancelling else s'.waits[k] == w
      case Tick(now) => if w.deadline <= now then s'.waits[k].ending == Fired(now) && k in s'.fire else s'.waits[k] == w
      case Stop(_) => s'.waits[k].ending == Dropped
      case _ => s'.waits[k] == w
  {
    RunKeeps(states, labels, t);
    RunKeeps(states, labels, t + 1);
    assert Step(states[t], labels[t], states[t + 1]);
    assert WaitOk(states[t].waits[k]) && WaitOk(states[t + 1].waits[k]);
  }

  /** Waits come from arming only, and an armed wait is live, queued for its deadline and counted, with a
      thread there to be told. */
  lemma ArmedIsLive(states: seq<State>, labels: seq<Label>, t: nat)
    requires IsRun(states, labels) && t < |labels|
    ensures var s, s' := states[t], states[t + 1]; var n := |s.waits|;
      if labels[t].Arm? then
        && |s'.waits| == n + 1 && s'.waits[n].live && s'.waits[n].deadline == labels[t].deadline
        && Entry(labels[t].deadline, n) in s'.heap && s'.thread
        && s'.live == s.live + 1 && s'.externalWaits == s.externalWaits + 1
      else |s'.waits| == n
  {
    assert Step(states[t], labels[t], states[t + 1]);
  }

  /** The blocks that steps `t .. u` handed over from the timer thread's list. */
  function HandedOver(states: seq<State>, labels: seq<Label>, t: nat, u: nat): seq<nat>
    requires t <= u <= |labels| && |states| == |labels| + 1
    decreases u
  {
    if t == u then [] else
    var before := HandedOver(states, labels, t, u - 1);
    if labels[u - 1] == HandFired && states[u].handed != [] then before + [states[u].handed[|states[u].handed| - 1]] else before
  }

  /** Between rounds the list only loses its front, to the scheduler. */
  predicate LosesFront(s: State, l: Label, s': State) {
    if l == HandFired then s'.handed != [] && s.fire == [s'.handed[|s'.handed| - 1]] + s'.fire
    else s'.fire == s.fire
  }

  lemma StepLosesFront(s: State, l: Label, s': State)
    requires Step(s, l, s') && !l.Tick?
    ensures LosesFront(s, l, s')
  {
  }

  lemma {:induction false} FrontByFront(states: seq<State>, labels: seq<Label>, t: nat, u: nat)
    requires t <= u < |states| == |labels| + 1
    requires forall k :: t <= k < u ==> LosesFront(states[k], labels[k], states[k + 1])
    ensures states[t].fire == HandedOver(states, labels, t, u) + states[u].fire
    decreases u
  {
    if t < u {
      FrontByFront(states, labels, t, u - 1);
      assert LosesFront(states[u - 1], labels[u - 1], states[u - 1 + 1]);
    }
  }

  /** A round's blocks are handed over front to back. */
  lemma RoundIsHandedInOrder(states: seq<State>, labels: seq<Label>, t: nat, u: nat)
    requires IsRun(states, labels) && t <= u < |states| && forall k :: t <= k < u ==> !labels[k].Tick?
    ensures states[t].fire == HandedOver(states, labels, t, u) + states[u].fire
  {
    forall k | t <= k < u ensures LosesFront(states[k], labels[k], states[k + 1]) {
      StepLosesFront(states[k], labels[k], states[k + 1]);
    }
    FrontByFront(states, labels, t, u);
  }

  /** After a round at `now` no live wait is due any more, and what fired was handed the timer thread in
      the order of deadlines and arming. */
  lemma NothingDueAfterTick(states: seq<State>, labels: seq<Label>, t: nat)
    requires IsRun(states, labels) && t < |labels| && labels[t].Tick?
    ensures var after := states[t + 1].waits;
      forall k :: 0 <= k < |after| && after[k].live ==> after[k].deadline > labels[t].now
    ensures var fire, waits := states[t + 1].fire, states[t].waits;
      forall i, j :: 0 <= i < j < |fire| ==>
        && fire[i] < |waits| && fire[j] < |waits|
        && (|| waits[fire[i]].deadline < waits[fire[j]].deadline
            || (waits[fire[i]].deadline == waits[fire[j]].deadline && fire[i] < fire[j]))
  {
    RunKeeps(states, labels, t);
    assert Step(states[t], labels[t], states[t + 1]);
    TickKeeps(states[t], labels[t].now, states[t + 1]);
  }

  /** After a shutdown's section the thread is on its way out until it is joined: no round and no second
      shutdown in between, and the join is possible as soon as its list is empty. */
  lemma {:induction false} NoRoundBeforeJoin(states: seq<State>, labels: seq<Label>, t: nat, u: nat)
    requires IsRun(states, labels) && t < u < |states| && labels[t].Stop? && Join !in labels[t..u]
    ensures states[u].thread && states[u].stopping
    ensures u < |labels| ==> !labels[u].Tick? && !labels[u].Stop?
    ensures states[u].fire == [] <==> exists s' :: Step(states[u], Join, s')
    decreases u
  {
    assert Step(states[u - 1], labels[u - 1], states[u]);
    if t + 1 < u {
      assert labels[t..u] == labels[t..u - 1] + [labels[u - 1]];
      NoRoundBeforeJoin(states, labels, t, u - 1);
    }
    assert u < |labels| ==> Step(states[u], labels[u], states[u + 1]);
    if states[u].fire == [] {
      assert Step(states[u], Join, states[u].(thread := false));
    }
  }

  /** Some entry comes before all others. */
  lemma FrontExists(h: set<Entry>) returns (e: Entry)
    requires h != {}
    ensures Least(h, e)
    decreases h
  {
    e :| e in h;
    var rest := h - {e};
    assert forall x :: x in h <==> x == e || x in rest;
    if rest != {} {
      var f := FrontExists(rest);
      if Before(f, e) {
        e := f;
      }
    }
  }

  /** The entries of the live waits due by `now`. */
  ghost function DueEntries(waits: seq<Wait>, now: int): set<Entry> {
    set k | 0 <= k < |waits| && Due(waits[k], now) :: Entry(waits[k].deadline, k)
  }

  lemma DueInOrder(waits: seq<Wait>, now: int) returns (fired: seq<nat>)
    ensures AreDue(fired, waits, now)
  {
    fired := [];
    var rest := DueEntries(waits, now);
    while rest != {}
      invariant rest <= DueEntries(waits, now) && InOrder(fired, waits)
      invariant forall s: nat :: s in fired <==> s < |waits| && Due(waits[s], now) && Entry(waits[s].deadline, s) !in rest
      invariant forall i, e :: 0 <= i < |fired| && e in rest ==> Before(Entry(waits[fired[i]].deadline, fired[i]), e)
      decreases rest
    {
      var e := FrontExists(rest);
      assert e in DueEntries(waits, now);
      var fired' := fired + [e.serial];
      assert forall s: nat :: s in fired' <==> s in fired || s == e.serial;
      fired, rest := fired', rest - {e};
    }
  }

  /** The thread can make a round at any time when it runs with nothing in hand, */
  lemma RoundIsPossible(s: State, now: int) returns (s': State)
    requires s.thread && !s.stopping && s.fire == []
    ensures Step(s, Tick(now), s')
  {
    var fired := DueInOrder(s.waits, now);
    var after := seq(|s.waits|, k requires 0 <= k < |s.waits| => if k in fired then FiredAt(s.waits[k], now) else s.waits[k]);
    s' := s.(heap := Remaining(s.heap, now), waits := after, live := s.live - |fired|, fire := fired);
  }

  /** and the front of its list, like every block a canceller took, can be handed over at any time. */
  lemma HandOverIsPossible(s: State, k: nat) returns (l: Label, s': State)
    requires k in s.cancelling || (s.fire != [] && s.fire[0] == k)
    ensures (l.HandFired? || l.HandCancelled?) && Step(s, l, s') && s'.handed == s.handed + [k]
  {
    if k in s.cancelling {
      var i :| 0 <= i < |s.cancelling| && s.cancelling[i] == k;
      l := HandCancelled(i);
      s' := s.(cancelling := Without(s.cancelling, i), handed := s.handed + [k], externalWaits := s.externalWaits - 1);
    } else {
      l := HandFired;
      s' := s.(fire := s.fire[1..], handed := s.handed + [k], externalWaits := s.externalWaits - 1);
    }
  }

  /** A wait can be armed with no thread to serve it only if it was armed while a shutdown was waiting for
      the thread to end. */
  lemma OnlyLateWaitsAreStranded(states: seq<State>, labels: seq<Label>, t: nat, k: nat)
    requires IsRun(states, labels) && t < |states| && k < |states[t].waits|
    requires !states[t].thread && states[t].waits[k].live
    ensures states[t].waits[k].late
  {
    RunKeeps(states, labels, t);
  }

  /** And such a wait is: once the thread has ended it is armed and counted with nobody to fire it, until
      some later call arms another wait or cancels it. */
  lemma LateArmIsStranded(s: State, deadline: int, s1: State, s2: State)
    requires Ok(s) && s.thread && s.stopping && Step(s, Arm(deadline), s1) && Step(s1, Join, s2)
    ensures !s2.thread && |s2.waits| == |s.waits| + 1 && s2.waits[|s.waits|].live && s2.externalWaits > 0
    ensures forall now, s3 :: !Step(s2, Tick(now), s3)
    ensures forall checkArmed, s3 :: !Step(s2, Stop(checkArmed), s3)
  {
    ArmKeeps(s, deadline);
    NoneLive(s1.waits);
  }

  // ---- the service itself ------------------------------------------------------------------------

  /** The front of the queue. */
  method Front(h: set<Entry>) returns (e: Entry)
    requires h != {}
    ensures Least(h, e)
  {
    e :| e in h;
    var rest := h - {e};
    while rest != {}
      invariant rest <= h && e in h && forall x :: x in h - rest ==> x == e || Before(e, x)
      decreases rest
    {
      var y :| y in rest;
      if Before(y, e) {
        assert forall x :: x in h - rest ==> x == e || Before(y, x);
        e := y;
      }
      rest := rest - {y};
    }
  }

  /** Whether a new entry, armed after all the others, goes to the front. */
  method BecomesFront(h: set<Entry>, e: Entry) returns (earlier: bool)
    requires forall x :: x in h ==> x.serial < e.serial
    ensures earlier <==> forall x :: x in h ==> e.deadline < x.deadline
    ensures earlier <==> Least(h + {e}, e)
  {
    if h == {} {
      return true;
    }
    var front := Front(h);
    earlier := e.deadline < front.deadline;
    if earlier {
      forall x | x in h ensures Before(e, x) {
      }
    } else {
      assert front in h + {e};
    }
  }

  datatype Stopping = NotRunning | StillArmed | Stopped

  /** The object; `handed` is history. */
  class Service {
    var heap: set<Entry>
    var waits: seq<Wait>
    var live: int
    var thread: bool
    var stopping: bool
    var externalWaits: int
    var fire: seq<nat>
    var cancelling: seq<nat>
    ghost var handed: seq<nat>

    ghost function Now(): State
      reads this
    {
      State(heap, waits, live, thread, stopping, externalWaits, fire, cancelling, handed)
    }

    constructor ()
      ensures Now() == FRESH
    {
      heap, waits, live, thread, stopping, externalWaits := {}, [], 0, false, false, 0;
      fire, cancelling, handed := [], [], [];
    }

    /** Arms a wait; `earlier`, that it is now first in the queue, tells the timer thread to look again. */
    method ArmWait(deadline: int) returns (serial: nat, earlier: bool)
      requires HeapOk(heap, waits)
      modifies this
      ensures Step(old(Now()), Arm(deadline), Now())
      ensures serial == |old(waits)| && (earlier <==> forall e :: e in old(heap) ==> deadline < e.deadline)
    {
      serial := |waits|;
      earlier := BecomesFront(heap, Entry(deadline, serial));
      if !thread {
        stopping := false;
      }
      waits := waits + [Wait(true, false, deadline, Pending, thread && stopping)];
      thread := true;
      live := live + 1;
      externalWaits := externalWaits + 1;
      heap := heap + {Entry(deadline, serial)};
    }

    /** The cancel callback: the block is taken unless the wait has already ended. */
    method CancelWait(serial: nat)
      requires serial < |waits|
      modifies this
      ensures Step(old(Now()), Cancel(serial), Now())
    {
      if !waits[serial].live {
        return;
      }
      waits := waits[serial := CancelledNow(waits[serial])];
      live := live - 1;
      cancelling := cancelling + [serial];
    }

    /** A canceller hands its block over; the external wait is released only after that. */
    method DeliverCancelled(i: nat)
      requires i < |cancelling|
      modifies this
      ensures Step(old(Now()), HandCancelled(i), Now())
    {
      handed := handed + [cancelling[i]];
      externalWaits := externalWaits - 1;
      cancelling := Without(cancelling, i);
    }

    /** The timer thread hands over the next block of its list. */
    method DeliverFired()
      requires fire != []
      modifies this
      ensures Step(old(Now()), HandFired, Now())
    {
      handed := handed + [fire[0]];
      externalWaits := externalWaits - 1;
      fire := fire[1..];
    }

    /** Everything due by `now`, off the queue, front first. */
    method TakeDue(now: int) returns (due: seq<Entry>)
      modifies `heap
      ensures Sorted(due) && heap == Remaining(old(heap), now)
      ensures forall e :: e in due <==> e in old(heap) && e.deadline <= now
    {
      due := [];
      var waiting := heap != {};
      while waiting
        invariant heap <= old(heap) && Sorted(due) && (waiting ==> heap != {})
        invariant forall e :: e in old(heap) && e !in heap ==> e in due
        invariant forall k, e :: 0 <= k < |due| && e in heap ==> Before(due[k], e)
        invariant forall e :: e in due ==> e in old(heap) && e !in heap && e.deadline <= now
        invariant !waiting ==> forall e :: e in heap ==> e.deadline > now
        decreases waiting, heap
      {
        var e := Front(heap);
        if e.deadline <= now {
          due := due + [e];
          heap := heap - {e};
          waiting := heap != {};
        } else {
          waiting := false;
        }
      }
    }

    /** Marks the live waits among `due` as fired and takes their blocks. */
    method FireDue(due: seq<Entry>, now: int)
      requires DueOk(due, waits, now) && fire == []
      modifies `waits, `live, `fire
      ensures Firing(due, |due|, old(waits), waits, fire, now) && live == old(live) - |fire|
    {
      for k := 0 to |due|
        invariant Firing(due, k, old(waits), waits, fire, now) && live == old(live) - |fire|
      {
        FireOne(due, k, old(waits), waits, fire, now);
        var s := due[k].serial;
        if waits[s].live {
          waits := waits[s := FiredAt(waits[s], now)];
          live := live - 1;
          fire := fire + [s];
        }
      }
    }

    /** One round of the timer thread at time `now`. */
    method Round(now: int)
      requires Ok(Now()) && thread && !stopping && fire == []
      modifies this
      ensures Step(old(Now()), Tick(now), Now())
    {
      var due := TakeDue(now);
      DueIsOk(old(heap), due, waits, now);
      FireDue(due, now);
      RoundIsATick(old(heap), due, old(waits), waits, fire, now);
    }

    /** The mutex section of shutdown.  With `checkArmed` a wait still armed is fatal; otherwise the live
        waits are dropped and will never be handed over. */
    method Shutdown(checkArmed: bool) returns (r: Stopping)
      requires Ok(Now()) && !(thread && stopping)
      modifies this
      ensures r == NotRunning <==> !old(thread)
      ensures r == StillArmed <==> old(thread) && checkArmed && exists s :: 0 <= s < |old(waits)| && old(waits)[s].live
      ensures if r == Stopped then Step(old(Now()), Stop(checkArmed), Now()) else Now() == old(Now())
    {
      NoneLive(waits);
      if !thread {
        return NotRunning;
      }
      if checkArmed && live != 0 {
        return StillArmed;
      }
      stopping := true;
      DropAll();
      heap := {};
      live := 0;
      return Stopped;
    }

    /** The sweep over the queue that shutdown makes. */
    method DropAll()
      requires HeapOk(heap, waits)
      modifies `waits, `externalWaits
      ensures waits == Swept(old(waits)) && externalWaits == old(externalWaits) - Count(old(waits))
    {
      var todo := heap;
      while todo != {}
        invariant todo <= heap && |waits| == |old(waits)|
        invariant externalWaits - Count(waits) == old(externalWaits) - Count(old(waits))
        invariant forall s :: 0 <= s < |waits| ==>
          || waits[s] == old(waits)[s]
          || (old(waits)[s].live && waits[s] == DroppedNow(old(waits)[s]))
        invariant forall e :: e in heap - todo ==> !waits[e.serial].live
        decreases todo
      {
        var e :| e in todo;
        var s := e.serial;
        if waits[s].live {
          CountUpdate(waits, s, DroppedNow(waits[s]));
          waits := waits[s := DroppedNow(waits[s])];
          externalWaits := externalWaits - 1;
        }
        todo := todo - {e};
      }
      forall s | 0 <= s < |waits| ensures !waits[s].live {
        assert old(waits)[s].live ==> Entry(old(waits)[s].deadline, s) in heap - todo;
      }
      NoneLive(waits);
    }

    /** The thread has run out of its loop and is joined. */
    method JoinThread()
      requires thread && stopping && fire == []
      modifies this
      ensures Step(old(Now()), Join, Now())
    {
      thread := false;
    }
  }

  predicate Sorted(h: seq<Entry>) {
    forall i, j :: 0 <= i < j < |h| ==> Before(h[i], h[j])
  }

  /** Entries taken off the queue: in order, known, and due. */
  predicate DueOk(due: seq<Entry>, waits: seq<Wait>, now: int) {
    && Sorted(due)
    && forall k :: 0 <= k < |due| ==>
         due[k].serial < |waits| && due[k].deadline == waits[due[k].serial].deadline <= now
  }

  lemma DueIsOk(h: set<Entry>, due: seq<Entry>, waits: seq<Wait>, now: int)
    requires HeapOk(h, waits) && Sorted(due) && forall e :: e in due ==> e in h && e.deadline <= now
    ensures DueOk(due, waits, now)
  {
    forall k | 0 <= k < |due| ensures due[k].serial < |waits| && due[k].deadline == waits[due[k].serial].deadline <= now {
      assert due[k] in due;
    }
  }

  /** Where the sweep over the due entries is after the first `k`. */
  ghost predicate Firing(due: seq<Entry>, k: nat, before: seq<Wait>, after: seq<Wait>, fired: seq<nat>, now: int)
    requires k <= |due|
  {
    && |after| == |before|
    && (forall s :: 0 <= s < |after| ==>
          after[s] == before[s] || (Due(before[s], now) && after[s] == FiredAt(before[s], now)))
    && (forall j :: 0 <= j < k ==> due[j].serial < |after| && !after[due[j].serial].live)
    && InOrder(fired, before)
    && (forall s: nat :: s in fired <==> s < |after| && after[s] != before[s])
    && (forall i, j :: 0 <= i < |fired| && k <= j < |due| ==> Before(Entry(before[fired[i]].deadline, fired[i]), due[j]))
  }

  lemma FireOne(due: seq<Entry>, k: nat, before: seq<Wait>, after: seq<Wait>, fired: seq<nat>, now: int)
    requires k < |due| && DueOk(due, before, now) && Firing(due, k, before, after, fired, now)
    ensures due[k].serial < |after|
    ensures var s := due[k].serial;
      if after[s].live then Firing(due, k + 1, before, after[s := FiredAt(after[s], now)], fired + [s], now)
      else Firing(due, k + 1, before, after, fired, now)
  {
    var s := due[k].serial;
    if after[s].live {
      var after', fired' := after[s := FiredAt(after[s], now)], fired + [s];
      assert due[k] == Entry(before[s].deadline, s);
      assert forall x: nat :: x in fired' <==> x in fired || x == s;
      assert InOrder(fired', before);
    }
  }

  /** The two loops of a round make one step: what fired is exactly what was due. */
  lemma RoundIsATick(h: set<Entry>, due: seq<Entry>, before: seq<Wait>, after: seq<Wait>, fired: seq<nat>, now: int)
    requires HeapOk(h, before) && forall e :: e in due <==> e in h && e.deadline <= now
    requires Firing(due, |due|, before, after, fired, now)
    ensures AreDue(fired, before, now) && Updated(before, after, fired, now)
  {
    forall s: nat | s < |after|
      ensures s in fired <==> Due(before[s], now)
      ensures after[s] == if s in fired then FiredAt(before[s], now) else before[s]
    {
      if Due(before[s], now) {
        var e := Entry(before[s].deadline, s);
        assert e in due;
        var k :| 0 <= k < |due| && due[k] == e;
        assert !after[due[k].serial].live;
      }
    }
  }
}
