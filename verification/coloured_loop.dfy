/** The coloured parallel loop of include/ts/parallel_for.h.  Rounds over bands are advanced by one
    atomic word holding the phase and the next index to claim; whoever accounts for a band's last item
    advances the phase.  If the items of a band touch disjoint locations, every interleaving ends in
    the state of the plain sequential loop. */
module ColouredLoop {
  import opened Pipes
  import opened Chunks
  import FlatLoop

  type Value(==, !new)
  type Memory = map<int, Value>

  /** `footprint(item)` are the locations the body of `item` may read or write, and `body` what it
      makes of their contents. */
  datatype Problem = Problem(
    bands: seq<seq<int>>,
    rounds: nat,
    balance: FlatLoop.Balance,
    workers: int,
    footprint: int -> set<int>,
    body: (int, Memory) -> Memory)

  /** Only non-empty bands are kept, sizes are the source's positive `int`s, and there is something to
      do (the loop returns at once otherwise). */
  predicate ProblemOk(pr: Problem) {
    && |pr.bands| > 0 && pr.rounds > 0 && pr.workers > 0
    && forall b :: 0 <= b < |pr.bands| ==> 0 < |pr.bands[b]| <= 0x7fff_ffff
  }

  /** The colouring: no two items of one band share a location. */
  ghost predicate Coloured(pr: Problem) {
    forall b :: 0 <= b < |pr.bands| ==> DisjointItems(pr, pr.bands[b])
  }

  ghost predicate DisjointItems(pr: Problem, band: seq<int>) {
    forall j, k :: 0 <= j < |band| && 0 <= k < |band| && j != k ==> pr.footprint(band[j]) !! pr.footprint(band[k])
  }

  // ---- the sequential loop ---------------------------------------------------------------------------

  function Snap(pr: Problem, item: int, mem: Memory): Memory {
    map l | l in mem && l in pr.footprint(item) :: mem[l]
  }

  /** What the body of `item` writes back after having read `snap`. */
  function Write(pr: Problem, item: int, snap: Memory): Memory {
    var out := pr.body(item, snap);
    map l | l in snap :: if l in out then out[l] else snap[l]
  }

  function RunItem(pr: Problem, item: int, mem: Memory): Memory {
    mem + Write(pr, item, Snap(pr, item, mem))
  }

  /** Running an item is calling its body on what is at its locations: those the body's result names get
      the result, everything else stays. */
  lemma ItemCallsBody(pr: Problem, item: int, mem: Memory)
    ensures var seen := map x | x in mem && x in pr.footprint(item) :: mem[x];
      RunItem(pr, item, mem) ==
        map l | l in mem :: if l in pr.footprint(item) && l in pr.body(item, seen) then pr.body(item, seen)[l] else mem[l]
  {
    assert Snap(pr, item, mem) == map x | x in mem && x in pr.footprint(item) :: mem[x];
  }

  function RunBand(pr: Problem, band: seq<int>, n: nat, mem: Memory): Memory
    requires n <= |band|
  {
    if n == 0 then mem else RunItem(pr, band[n - 1], RunBand(pr, band, n - 1, mem))
  }

  function Total(pr: Problem): nat {
    pr.rounds * |pr.bands|
  }

  function BandOf(pr: Problem, phase: nat): seq<int>
    requires ProblemOk(pr)
  {
    pr.bands[phase % |pr.bands|]
  }

  /** The memory after `phases` bands of the rounds-by-bands loop. */
  function RunPhases(pr: Problem, phases: nat, mem: Memory): Memory
    requires ProblemOk(pr)
  {
    if phases == 0 then mem
    else RunBand(pr, BandOf(pr, phases - 1), |BandOf(pr, phases - 1)|, RunPhases(pr, phases - 1, mem))
  }

  // ---- the packed word ------------------------------------------------------------------------------

  const WORD := 0x1_0000_0000

  function Pack(phase: nat, index: nat): nat {
    phase * WORD + index
  }

  function Phase(w: nat): nat {
    w / WORD
  }

  function Index(w: nat): nat {
    w % WORD
  }

  lemma PackUnpack(phase: nat, index: nat)
    requires index < 0x1_0000_0000
    ensures Phase(Pack(phase, index)) == phase && Index(Pack(phase, index)) == index
  {
  }

  // ---- the loop as a transition system ----------------------------------------------------------------

  datatype Item = Free | Taken(who: nat) | Ran(who: nat) | Counted

  /** `Have(cur)`: holds a possibly outdated copy of the word.  `Busy`: claimed `start .. stop`, about to
      run `i`, with `snap` what the running body has read.  The phase is advanced in two or three atomic
      steps by the executor that counted the last item. */
  datatype Pc =
    | Loading
    | Have(cur: nat)
    | Waits(cur: nat)
    | Busy(ph: nat, start: nat, i: nat, stop: nat, snap: Option<Memory>)
    | Resetting(ph: nat)
    | Publishing(ph: nat)
    | Finishing(ph: nat)
    | Completing
    | Exited

  /** `items` (the current band's items), `lead` (the executor advancing the phase, or -1) and
      `completes` (calls of `complete()`) are history; the rest is the shared state. */
  datatype State = State(
    word: nat,
    bandDone: int,
    execs: seq<Pc>,
    mem: Memory,
    items: seq<Item>,
    lead: int,
    completes: nat)

  datatype Label =
    | Load(e: nat) | Yield(e: nat) | Look(e: nat) | Wake(e: nat) | Cas(e: nat, spurious: bool)
    | Begin(e: nat) | End(e: nat) | Count(e: nat) | Reset(e: nat) | Publish(e: nat) | Terminate(e: nat) | Complete(e: nat)

  function Start(pr: Problem, executors: nat, mem: Memory): State
    requires ProblemOk(pr)
  {
    State(0, 0, seq(executors, _ => Loading), mem, seq(|BandOf(pr, 0)|, _ => Free), -1, 0)
  }

  function At(s: State, e: nat, pc: Pc): State
    requires e < |s.execs|
  {
    s.(execs := s.execs[e := pc])
  }

  /** There is still something to claim according to the copy `cur`. */
  predicate Claimable(pr: Problem, cur: nat)
    requires ProblemOk(pr)
  {
    Phase(cur) < Total(pr) && Index(cur) < |BandOf(pr, Phase(cur))|
  }

  predicate Enabled(pr: Problem, s: State, l: Label)
    requires ProblemOk(pr)
  {
    && l.e < |s.execs|
    && match l
       case Load(e) => s.execs[e] == Loading
       case Yield(e) => s.execs[e].Have?
       case Look(e) => s.execs[e].Have? && !Claimable(pr, s.execs[e].cur)
       case Wake(e) => s.execs[e].Waits? && s.execs[e].cur != s.word
       case Cas(e, _) => s.execs[e].Have? && Claimable(pr, s.execs[e].cur)
       case Begin(e) => s.execs[e].Busy? && s.execs[e].i < s.execs[e].stop && s.execs[e].snap == None
       case End(e) => s.execs[e].Busy? && s.execs[e].snap.Some?
       case Count(e) => s.execs[e].Busy? && s.execs[e].i == s.execs[e].stop && s.execs[e].snap == None
       case Reset(e) => s.execs[e].Resetting?
       case Publish(e) => s.execs[e].Publishing?
       case Terminate(e) => s.execs[e].Finishing?
       case Complete(e) => s.execs[e] == Completing
  }

  /** Where a claim that starts at `idx` ends: the grain, clamped to the band. */
  function ClaimStop(pr: Problem, band: seq<int>, idx: nat): (stop: nat)
    requires ProblemOk(pr) && idx < |band|
    ensures idx < stop <= |band|
  {
    FlatLoop.GrainBounds(pr.balance, |band|, idx, pr.workers);
    FlatLoop.Min(idx + FlatLoop.ClaimGrain(pr.balance, |band|, idx, pr.workers), |band|)
  }

  /** A claim takes the policy's grain, or what is left of the band. */
  lemma ClaimIsOneGrain(pr: Problem, band: seq<int>, idx: nat) returns (g: int)
    requires ProblemOk(pr) && idx < |band|
    ensures FlatLoop.GrainFits(pr.balance, |band|, idx, pr.workers, g)
    ensures ClaimStop(pr, band, idx) == (if idx + g <= |band| then idx + g else |band|)
  {
    FlatLoop.GrainIsExact(pr.balance, |band|, idx, pr.workers);
    g := FlatLoop.ClaimGrain(pr.balance, |band|, idx, pr.workers);
  }

  function Next(pr: Problem, s: State, l: Label): State
    requires Ctl(pr, s) && Enabled(pr, s, l)
  {
    assert PcInv(pr, s, l.e);
    match l
    case Load(e) => At(s, e, Have(s.word))
    case Yield(e) => At(s, e, Loading)
    case Look(e) => At(s, e, if Phase(s.execs[e].cur) >= Total(pr) then Exited else Waits(s.execs[e].cur))
    case Wake(e) => At(s, e, Have(s.word))
    case Cas(e, spurious) =>
      var cur := s.execs[e].cur;
      if spurious || s.word != cur then At(s, e, Have(s.word))
      else
        var ph, idx := Phase(cur), Index(cur);
        var stop := ClaimStop(pr, BandOf(pr, ph), idx);
        At(s, e, Busy(ph, idx, idx, stop, None)).(word := Pack(ph, stop), items := Fill(s.items, idx, stop, Taken(e)))
    case Begin(e) =>
      var pc := s.execs[e];
      At(s, e, pc.(snap := Some(Snap(pr, BandOf(pr, pc.ph)[pc.i], s.mem))))
    case End(e) =>
      var pc := s.execs[e];
      At(s, e, pc.(i := pc.i + 1, snap := None)).(
        mem := s.mem + Write(pr, BandOf(pr, pc.ph)[pc.i], pc.snap.value), items := s.items[pc.i := Ran(e)])
    case Count(e) =>
      var pc := s.execs[e];
      var done := s.bandDone + (pc.stop - pc.start);
      var s1 := s.(bandDone := done, items := Fill(s.items, pc.start, pc.stop, Counted));
      if done != |BandOf(pr, pc.ph)| then At(s1, e, Loading)
      else At(s1, e, if pc.ph + 1 >= Total(pr) then Finishing(pc.ph) else Resetting(pc.ph)).(lead := e)
    case Reset(e) => At(s, e, Publishing(s.execs[e].ph)).(bandDone := 0)
    case Publish(e) =>
      var ph := s.execs[e].ph;
      At(s, e, Have(Pack(ph + 1, 0))).(
        word := Pack(ph + 1, 0), items := seq(|BandOf(pr, ph + 1)|, _ => Free), lead := -1)
    case Terminate(e) => At(s, e, Completing).(word := Pack(Total(pr), 0), items := [])
    case Complete(e) => At(s, e, Exited).(completes := s.completes + 1, lead := -1)
  }

  // ---- the control invariant --------------------------------------------------------------------------

  predicate Owned(x: Item, e: int) {
    (x.Taken? || x.Ran?) && x.who == e
  }

  predicate InHand(pc: Pc, k: int) {
    pc.Busy? && pc.start <= k < pc.stop
  }

  predicate Agrees(items: seq<Item>, pc: Pc, e: nat) {
    forall k :: 0 <= k < |items| ==>
      (Owned(items[k], e) <==> InHand(pc, k)) && (InHand(pc, k) ==> items[k] == (if k < pc.i then Ran(e) else Taken(e)))
  }

  predicate Leads(pc: Pc) {
    pc.Resetting? || pc.Publishing? || pc.Finishing? || pc.Completing?
  }

  predicate PcInv(pr: Problem, s: State, e: nat)
    requires ProblemOk(pr) && e < |s.execs|
  {
    && (Leads(s.execs[e]) <==> s.lead == e)
    && match s.execs[e]
       case Busy(ph, start, i, stop, snap) =>
         && ph == Phase(s.word) < Total(pr) && start <= i <= stop <= Index(s.word) && start < stop
         && (snap.Some? ==> i < stop) && InHand(s.execs[e], start)
       case Resetting(ph) => ph == Phase(s.word) && ph + 1 < Total(pr)
       case Publishing(ph) => ph == Phase(s.word) && ph + 1 < Total(pr) && s.bandDone == 0
       case Finishing(ph) => ph == Phase(s.word) && ph + 1 == Total(pr)
       case Completing => Phase(s.word) == Total(pr)
       case Exited => Phase(s.word) == Total(pr)
       case Have(cur) => cur <= s.word
       case Waits(cur) => cur <= s.word && !Claimable(pr, cur)
       case Loading => true
  }

  predicate ItemInv(s: State, k: int)
    requires 0 <= k < |s.items|
  {
    && (s.items[k] == Free <==> Index(s.word) <= k)
    && (!s.items[k].Free? && !s.items[k].Counted? ==> s.items[k].who < |s.execs| && Owned(s.items[k], s.items[k].who))
  }

  predicate IsCounted(x: Item) {
    x.Counted?
  }

  function CountCounted(items: seq<Item>): nat {
    Chunks.Count(items, IsCounted)
  }

  /** The word, the band's items and the phase leader fit together. */
  predicate PhaseInv(pr: Problem, s: State)
    requires ProblemOk(pr)
  {
    && -1 <= s.lead < |s.execs|
    && if Phase(s.word) < Total(pr) then
         && |s.items| == |BandOf(pr, Phase(s.word))| && Index(s.word) <= |s.items|
         && (s.lead == -1 <==> CountCounted(s.items) < |s.items|)
         && (s.lead == -1 || !s.execs[s.lead].Publishing? ==> s.bandDone == CountCounted(s.items))
         && s.completes == 0
       else
         && s.word == Pack(Total(pr), 0) && s.items == []
         && s.completes == (if s.lead == -1 then 1 else 0)
  }

  predicate Ctl(pr: Problem, s: State) {
    && ProblemOk(pr) && PhaseInv(pr, s)
    && (forall e :: 0 <= e < |s.execs| ==> PcInv(pr, s, e) && Agrees(s.items, s.execs[e], e))
    && (forall k :: 0 <= k < |s.items| ==> ItemInv(s, k))
  }

  lemma StartOk(pr: Problem, executors: nat, mem: Memory)
    requires ProblemOk(pr)
    ensures Ctl(pr, Start(pr, executors, mem))
  {
    var s := Start(pr, executors, mem);
    CountBounds(s.items, IsCounted);
    assert Total(pr) > 0;
  }

  /** An executor that the step is not about still agrees, as only items nobody else holds changed
      hands. */
  lemma OtherAgrees(items: seq<Item>, items': seq<Item>, pc: Pc, d: nat, e: nat)
    requires Agrees(items, pc, d) && d != e && |items'| == |items|
    requires forall k :: 0 <= k < |items| && items'[k] != items[k] ==>
      (items[k] == Free || Owned(items[k], e)) && (items'[k].Counted? || Owned(items'[k], e))
    ensures Agrees(items', pc, d)
  {
    forall k | 0 <= k < |items| ensures Owned(items'[k], d) <==> Owned(items[k], d) {
    }
  }

  /** So after a step of `e` that leaves `e` itself agreeing, all agree. */
  lemma AllAgree(pr: Problem, s: State, s': State, e: nat)
    requires Ctl(pr, s) && |s'.items| == |s.items| && e < |s.execs| == |s'.execs|
    requires s'.execs == s.execs[e := s'.execs[e]] && Agrees(s'.items, s'.execs[e], e)
    requires forall k :: 0 <= k < |s.items| && s'.items[k] != s.items[k] ==>
      (s.items[k] == Free || Owned(s.items[k], e)) && (s'.items[k].Counted? || Owned(s'.items[k], e))
    ensures forall d :: 0 <= d < |s.execs| ==> Agrees(s'.items, s'.execs[d], d)
  {
    forall d | 0 <= d < |s.execs| ensures Agrees(s'.items, s'.execs[d], d) {
      if d != e {
        assert Agrees(s.items, s.execs[d], d);
        OtherAgrees(s.items, s'.items, s.execs[d], d, e);
      }
    }
  }

  /** Within a phase, the positions of the executors a step of `e` is not about. */
  lemma OtherPcs(pr: Problem, s: State, s': State, e: nat)
    requires Ctl(pr, s) && e < |s.execs| == |s'.execs| && s'.execs == s.execs[e := s'.execs[e]] && PcInv(pr, s', e)
    requires Phase(s'.word) == Phase(s.word) && Index(s'.word) >= Index(s.word) && s'.word >= s.word
    requires s'.lead == s.lead || (s.lead in {-1, e as int} && s'.lead in {-1, e as int})
    requires s'.bandDone == s.bandDone || s.lead in {-1, e as int}
    ensures forall d :: 0 <= d < |s.execs| ==> PcInv(pr, s', d)
  {
    forall d | 0 <= d < |s.execs| ensures PcInv(pr, s', d) {
      assert PcInv(pr, s, d);
    }
  }

  lemma SameItems(s: State, s': State)
    requires s'.items == s.items && s'.word == s.word && |s'.execs| == |s.execs|
    requires forall k :: 0 <= k < |s.items| ==> ItemInv(s, k)
    ensures forall k :: 0 <= k < |s'.items| ==> ItemInv(s', k)
  {
    forall k | 0 <= k < |s'.items| ensures ItemInv(s', k) {
      assert ItemInv(s, k);
    }
  }

  /** From the next index on nothing of the band has been claimed. */
  lemma FreeTail(pr: Problem, s: State)
    requires Ctl(pr, s) && Index(s.word) < |s.items|
    ensures forall k :: Index(s.word) <= k < |s.items| ==> s.items[k] == Free
    ensures s.lead == -1 && CountCounted(s.items) < |s.items|
  {
    forall k | Index(s.word) <= k < |s.items| ensures s.items[k] == Free {
      assert ItemInv(s, k);
    }
    CountBounds(s.items, IsCounted);
    assert !IsCounted(s.items[Index(s.word)]);
  }

  /** A claim seen by the claimant. */
  lemma ClaimantAgrees(items: seq<Item>, e: nat, ph: nat, start: nat, stop: nat)
    requires start < stop <= |items| && forall k :: 0 <= k < |items| ==> !Owned(items[k], e)
    ensures Agrees(Fill(items, start, stop, Taken(e)), Busy(ph, start, start, stop, None), e)
  {
  }

  /** A claim succeeds only against the current word, so the items it takes were free. */
  lemma ClaimTakesFreeItems(pr: Problem, s: State, e: nat)
    requires Ctl(pr, s) && Enabled(pr, s, Cas(e, false)) && s.word == s.execs[e].cur
    ensures var s' := Next(pr, s, Cas(e, false));
      var idx := Index(s.word); var stop := ClaimStop(pr, BandOf(pr, Phase(s.word)), idx);
      && s'.items == Fill(s.items, idx, stop, Taken(e)) && stop <= |s.items|
      && (forall k :: idx <= k < stop ==> s.items[k] == Free)
      && Phase(s'.word) == Phase(s.word) && Index(s'.word) == stop
      && s.lead == -1 && CountCounted(s'.items) == CountCounted(s.items) < |s.items|
  {
    var idx := Index(s.word);
    var stop := ClaimStop(pr, BandOf(pr, Phase(s.word)), idx);
    PackUnpack(Phase(s.word), stop);
    FreeTail(pr, s);
    CountFill(s.items, IsCounted, idx, stop, Taken(e));
  }

  lemma ClaimStep(pr: Problem, s: State, e: nat)
    requires Ctl(pr, s) && Enabled(pr, s, Cas(e, false)) && s.word == s.execs[e].cur
    ensures Ctl(pr, Next(pr, s, Cas(e, false)))
  {
    var s' := Next(pr, s, Cas(e, false));
    ClaimTakesFreeItems(pr, s, e);
    assert PcInv(pr, s, e) && Agrees(s.items, s.execs[e], e);
    ClaimantAgrees(s.items, e, Phase(s.word), Index(s.word), Index(s'.word));
    AllAgree(pr, s, s', e);
    OtherPcs(pr, s, s', e);
    forall k | 0 <= k < |s'.items| ensures ItemInv(s', k) {
      assert ItemInv(s, k);
    }
  }

  predicate LocalLabel(s: State, l: Label) {
    || l.Load? || l.Yield? || l.Look? || l.Wake? || l.Begin?
    || (l.Cas? && l.e < |s.execs| && s.execs[l.e].Have? && (l.spurious || s.word != s.execs[l.e].cur))
  }

  /** Moving one executor without touching anything shared or in hand. */
  lemma MoveKeeps(pr: Problem, s: State, e: nat, pc: Pc)
    requires Ctl(pr, s) && e < |s.execs| && PcInv(pr, At(s, e, pc), e) && Agrees(s.items, pc, e)
    requires !Leads(s.execs[e]) && !Leads(pc)
    ensures Ctl(pr, At(s, e, pc))
  {
    var s' := At(s, e, pc);
    assert PcInv(pr, s, e);
    AllAgree(pr, s, s', e);
    OtherPcs(pr, s, s', e);
    SameItems(s, s');
  }

  /** The new position of a local step. */
  lemma LocalPc(pr: Problem, s: State, l: Label)
    requires Ctl(pr, s) && Enabled(pr, s, l) && LocalLabel(s, l)
    ensures Next(pr, s, l) == At(s, l.e, Next(pr, s, l).execs[l.e]) && PcInv(pr, Next(pr, s, l), l.e)
    ensures Agrees(s.items, Next(pr, s, l).execs[l.e], l.e)
    ensures !Leads(s.execs[l.e]) && !Leads(Next(pr, s, l).execs[l.e])
  {
    assert PcInv(pr, s, l.e) && Agrees(s.items, s.execs[l.e], l.e);
    var pc, pc' := s.execs[l.e], Next(pr, s, l).execs[l.e];
    assert forall k :: InHand(pc, k) <==> InHand(pc', k);
  }

  /** Steps that touch nothing shared. */
  lemma LocalStep(pr: Problem, s: State, l: Label)
    requires Ctl(pr, s) && Enabled(pr, s, l) && LocalLabel(s, l)
    ensures Ctl(pr, Next(pr, s, l))
    ensures Next(pr, s, l) == s.(execs := s.execs[l.e := Next(pr, s, l).execs[l.e]])
  {
    LocalPc(pr, s, l);
    MoveKeeps(pr, s, l.e, Next(pr, s, l).execs[l.e]);
  }

  /** The end of one body, seen by its executor. */
  lemma RunnerAgrees(items: seq<Item>, pc: Pc, e: nat)
    requires Agrees(items, pc, e) && pc.Busy? && pc.start <= pc.i < pc.stop <= |items|
    ensures items[pc.i] == Taken(e)
    ensures Agrees(items[pc.i := Ran(e)], pc.(i := pc.i + 1, snap := None), e)
    ensures CountCounted(items[pc.i := Ran(e)]) == CountCounted(items)
  {
    assert InHand(pc, pc.i);
    var items', pc' := items[pc.i := Ran(e)], pc.(i := pc.i + 1, snap := None);
    forall k | 0 <= k < |items|
      ensures (Owned(items'[k], e) <==> InHand(pc', k)) && (InHand(pc', k) ==> items'[k] == (if k < pc'.i then Ran(e) else Taken(e)))
    {
      assert InHand(pc, k) <==> InHand(pc', k);
    }
    CountUpdate(items, IsCounted, pc.i, Ran(e));
  }

  lemma EndStep(pr: Problem, s: State, e: nat)
    requires Ctl(pr, s) && Enabled(pr, s, End(e))
    ensures Ctl(pr, Next(pr, s, End(e)))
    ensures var i := s.execs[e].i; i < |s.items| && s.items[i] == Taken(e)
  {
    var s' := Next(pr, s, End(e));
    assert PcInv(pr, s, e) && Agrees(s.items, s.execs[e], e);
    RunnerAgrees(s.items, s.execs[e], e);
    AllAgree(pr, s, s', e);
    OtherPcs(pr, s, s', e);
    forall k | 0 <= k < |s'.items| ensures ItemInv(s', k) {
      assert ItemInv(s, k);
    }
  }

  /** Accounting for everything in hand, seen by its executor. */
  lemma AccountantAgrees(items: seq<Item>, pc: Pc, e: nat, pc': Pc)
    requires Agrees(items, pc, e) && pc.Busy? && pc.start < pc.stop <= |items| && !pc'.Busy?
    ensures Agrees(Fill(items, pc.start, pc.stop, Counted), pc', e)
    ensures forall k :: pc.start <= k < pc.stop ==> Owned(items[k], e)
    ensures CountCounted(Fill(items, pc.start, pc.stop, Counted)) == CountCounted(items) + (pc.stop - pc.start) <= |items|
    ensures CountCounted(items) < |items|
  {
    var items' := Fill(items, pc.start, pc.stop, Counted);
    forall k | 0 <= k < |items| ensures !Owned(items'[k], e) {
      assert Owned(items[k], e) <==> InHand(pc, k);
    }
    forall k | pc.start <= k < pc.stop ensures Owned(items[k], e) && !IsCounted(items[k]) {
      assert InHand(pc, k);
    }
    CountFill(items, IsCounted, pc.start, pc.stop, Counted);
    CountBounds(items', IsCounted);
  }

  /** The band's counter is the number of items accounted for, and only one executor sees it reach the
      band's size. */
  lemma CountTallies(pr: Problem, s: State, e: nat)
    requires Ctl(pr, s) && Enabled(pr, s, Count(e))
    ensures s.lead == -1
    ensures Next(pr, s, Count(e)).bandDone == CountCounted(Next(pr, s, Count(e)).items) <= |s.items|
  {
    assert PcInv(pr, s, e) && Agrees(s.items, s.execs[e], e);
    AccountantAgrees(s.items, s.execs[e], e, Loading);
  }

  lemma CountItems(pr: Problem, s: State, e: nat, k: nat)
    requires Ctl(pr, s) && Enabled(pr, s, Count(e)) && k < |s.items|
    ensures ItemInv(Next(pr, s, Count(e)), k)
  {
    assert ItemInv(s, k);
    assert PcInv(pr, s, e) && Agrees(s.items, s.execs[e], e);
    assert Owned(s.items[k], e) <==> InHand(s.execs[e], k);
  }

  lemma CountStep(pr: Problem, s: State, e: nat)
    requires Ctl(pr, s) && Enabled(pr, s, Count(e))
    ensures Ctl(pr, Next(pr, s, Count(e)))
  {
    var s' := Next(pr, s, Count(e));
    assert PcInv(pr, s, e) && Agrees(s.items, s.execs[e], e);
    CountTallies(pr, s, e);
    AccountantAgrees(s.items, s.execs[e], e, s'.execs[e]);
    AllAgree(pr, s, s', e);
    OtherPcs(pr, s, s', e);
    forall k | 0 <= k < |s'.items| ensures ItemInv(s', k) {
      CountItems(pr, s, e, k);
    }
  }

  /** When somebody advances the phase, everything is accounted for and nobody is busy. */
  lemma LeaderIsAlone(pr: Problem, s: State)
    requires Ctl(pr, s) && s.lead != -1
    ensures forall d :: 0 <= d < |s.execs| ==> !s.execs[d].Busy?
    ensures forall k :: 0 <= k < |s.items| ==> s.items[k].Counted?
  {
    CountBounds(s.items, IsCounted);
    forall k | 0 <= k < |s.items| ensures s.items[k].Counted? {
      assert IsCounted(s.items[k]);
    }
    forall d | 0 <= d < |s.execs| ensures !s.execs[d].Busy? {
      assert PcInv(pr, s, d) && Agrees(s.items, s.execs[d], d);
    }
  }

  /** The leader's steps that stay in the phase. */
  lemma LeadStep(pr: Problem, s: State, l: Label)
    requires Ctl(pr, s) && Enabled(pr, s, l) && (l.Reset? || l.Complete?)
    ensures Ctl(pr, Next(pr, s, l))
  {
    var s' := Next(pr, s, l);
    assert PcInv(pr, s, l.e) && Agrees(s.items, s.execs[l.e], l.e);
    AllAgree(pr, s, s', l.e);
    OtherPcs(pr, s, s', l.e);
    SameItems(s, s');
  }

  lemma AdvancePcs(pr: Problem, s: State, l: Label, d: nat)
    requires Ctl(pr, s) && Enabled(pr, s, l) && (l.Publish? || l.Terminate?) && d < |s.execs|
    ensures PcInv(pr, Next(pr, s, l), d) && Agrees(Next(pr, s, l).items, Next(pr, s, l).execs[d], d)
  {
    assert PcInv(pr, s, d) && PcInv(pr, s, l.e);
    LeaderIsAlone(pr, s);
    PackUnpack(Phase(s.word) + 1, 0);
    PackUnpack(Total(pr), 0);
  }

  /** The leader's steps into the next phase. */
  lemma AdvanceStep(pr: Problem, s: State, l: Label)
    requires Ctl(pr, s) && Enabled(pr, s, l) && (l.Publish? || l.Terminate?)
    ensures Ctl(pr, Next(pr, s, l))
  {
    var s' := Next(pr, s, l);
    assert PcInv(pr, s, l.e);
    PackUnpack(Phase(s.word) + 1, 0);
    PackUnpack(Total(pr), 0);
    CountBounds(s'.items, IsCounted);
    forall d | 0 <= d < |s'.execs| ensures PcInv(pr, s', d) && Agrees(s'.items, s'.execs[d], d) {
      AdvancePcs(pr, s, l, d);
    }
  }

  lemma StepKeepsCtl(pr: Problem, s: State, l: Label)
    requires Ctl(pr, s) && Enabled(pr, s, l)
    ensures Ctl(pr, Next(pr, s, l))
  {
    match l
    case End(e) => EndStep(pr, s, e);
    case Count(e) => CountStep(pr, s, e);
    case Cas(e, spurious) => if LocalLabel(s, l) { LocalStep(pr, s, l); } else { ClaimStep(pr, s, e); }
    case Publish(_) => AdvanceStep(pr, s, l);
    case Terminate(_) => AdvanceStep(pr, s, l);
    case _ => if LocalLabel(s, l) { LocalStep(pr, s, l); } else { LeadStep(pr, s, l); }
  }

  /** The packed word only ever grows: a successful claim moves the index, a phase advance the phase.
      So a claim against an outdated copy always fails. */
  lemma WordNeverDecreases(pr: Problem, s: State, l: Label)
    requires Ctl(pr, s) && Enabled(pr, s, l)
    ensures Next(pr, s, l).word >= s.word
    ensures Next(pr, s, l).word == s.word <==> LocalLabel(s, l) || l.End? || l.Count? || l.Reset? || l.Complete?
  {
    assert PcInv(pr, s, l.e);
    if l.Publish? || l.Terminate? {
      LeaderIsAlone(pr, s);
    }
  }

  /** A phase ends only when every item of its band is accounted for and no body is running, and then
      the next phase starts with nothing claimed: no item starts before the previous phase is over. */
  lemma PhasesDoNotOverlap(pr: Problem, s: State, l: Label)
    requires Ctl(pr, s) && Enabled(pr, s, l)
    ensures Phase(Next(pr, s, l).word) in {Phase(s.word), Phase(s.word) + 1}
    ensures Phase(Next(pr, s, l).word) != Phase(s.word) ==>
      && (forall k :: 0 <= k < |s.items| ==> s.items[k] == Counted)
      && (forall e :: 0 <= e < |s.execs| ==> !s.execs[e].Busy?)
      && (forall k :: 0 <= k < |Next(pr, s, l).items| ==> Next(pr, s, l).items[k] == Free)
      && s.lead == l.e && Next(pr, s, l).word == Pack(Phase(s.word) + 1, 0)
    ensures l.Begin? ==> s.execs[l.e].ph == Phase(s.word)
  {
    assert PcInv(pr, s, l.e);
    if l.Publish? || l.Terminate? {
      LeaderIsAlone(pr, s);
      PackUnpack(Phase(s.word) + 1, 0);
      PackUnpack(Total(pr), 0);
    } else if l.Cas? && !LocalLabel(s, l) {
      ClaimTakesFreeItems(pr, s, l.e);
    }
  }

  /** Anything but giving way or losing a claim for no reason. */
  predicate Productive(l: Label) {
    !l.Yield? && !(l.Cas? && l.spurious)
  }

  function BusyLabel(e: nat, pc: Pc): Label
    requires pc.Busy?
  {
    if pc.snap.Some? then End(e) else if pc.i < pc.stop then Begin(e) else Count(e)
  }

  /** The loop never gets stuck: until it has completed, some executor can claim, run, account for or
      advance something, whichever helpers never showed up. */
  lemma NeverStuck(pr: Problem, s: State) returns (l: Label)
    requires Ctl(pr, s) && s.completes == 0 && |s.execs| > 0
    ensures Enabled(pr, s, l) && Productive(l)
  {
    if s.lead != -1 {
      var e := s.lead;
      assert PcInv(pr, s, e);
      var pc := s.execs[e];
      l := if pc.Resetting? then Reset(e) else if pc.Publishing? then Publish(e)
        else if pc.Finishing? then Terminate(e) else Complete(e);
    } else if Index(s.word) < |s.items| {
      assert PcInv(pr, s, 0);
      match s.execs[0]
      case Loading => l := Load(0);
      case Have(cur) => l := if Claimable(pr, cur) then Cas(0, false) else Look(0);
      case Waits(_) => l := Wake(0);
      case Busy(_, _, _, _, _) => l := BusyLabel(0, s.execs[0]);
    } else {
      CountBounds(s.items, IsCounted);
      var k :| 0 <= k < |s.items| && !IsCounted(s.items[k]);
      assert ItemInv(s, k);
      var e := s.items[k].who;
      assert PcInv(pr, s, e) && Agrees(s.items, s.execs[e], e);
      l := BusyLabel(e, s.execs[e]);
    }
  }

  // ---- the memory -------------------------------------------------------------------------------------

  predicate Landed(x: Item) {
    x.Ran? || x.Counted?
  }

  /** Every location holds what the one landed item that may touch it wrote from the band's starting
      memory, or still that starting value. */
  ghost predicate LocationOk(pr: Problem, band: seq<int>, base: Memory, items: seq<Item>, mem: Memory, l: int)
    requires |items| == |band| && mem.Keys == base.Keys && l in base
  {
    && (forall k :: 0 <= k < |band| && Landed(items[k]) && l in pr.footprint(band[k]) ==>
          mem[l] == Write(pr, band[k], Snap(pr, band[k], base))[l])
    && ((forall k :: 0 <= k < |band| && Landed(items[k]) ==> l !in pr.footprint(band[k])) ==> mem[l] == base[l])
  }

  ghost predicate Merged(pr: Problem, band: seq<int>, base: Memory, items: seq<Item>, mem: Memory) {
    && |items| == |band| && mem.Keys == base.Keys
    && forall l :: l in base ==> LocationOk(pr, band, base, items, mem, l)
  }

  /** An item that has not landed still sees the band's starting memory. */
  lemma SnapIsUntouched(pr: Problem, band: seq<int>, base: Memory, items: seq<Item>, mem: Memory, k: nat)
    requires DisjointItems(pr, band) && Merged(pr, band, base, items, mem) && k < |band| && !Landed(items[k])
    ensures Snap(pr, band[k], mem) == Snap(pr, band[k], base)
  {
    forall l | l in base && l in pr.footprint(band[k]) ensures mem[l] == base[l] {
      assert LocationOk(pr, band, base, items, mem, l);
      forall j | 0 <= j < |band| && Landed(items[j]) ensures l !in pr.footprint(band[j]) {
        assert pr.footprint(band[j]) !! pr.footprint(band[k]);
      }
    }
  }

  /** Landing one more item keeps the memory merged. */
  lemma LandOne(pr: Problem, band: seq<int>, base: Memory, items: seq<Item>, mem: Memory, k: nat, x: Item)
    requires DisjointItems(pr, band) && Merged(pr, band, base, items, mem) && k < |band|
    requires !Landed(items[k]) && Landed(x)
    ensures Merged(pr, band, base, items[k := x], mem + Write(pr, band[k], Snap(pr, band[k], base)))
  {
    var w := Write(pr, band[k], Snap(pr, band[k], base));
    var mem', items' := mem + w, items[k := x];
    assert w.Keys <= base.Keys;
    assert mem'.Keys == base.Keys;
    forall l | l in base ensures LocationOk(pr, band, base, items', mem', l) {
      assert LocationOk(pr, band, base, items, mem, l);
      if l in pr.footprint(band[k]) {
        assert l in w;
        forall j | 0 <= j < |band| && j != k ensures l !in pr.footprint(band[j]) {
          assert pr.footprint(band[j]) !! pr.footprint(band[k]);
        }
      } else {
        assert l !in w;
        assert forall j :: 0 <= j < |band| && j != k ==> items'[j] == items[j];
      }
    }
  }

  /** The merged memory is determined by which items have landed. */
  lemma MergedIsUnique(pr: Problem, band: seq<int>, base: Memory, items: seq<Item>, items': seq<Item>, m: Memory, m': Memory)
    requires Merged(pr, band, base, items, m) && Merged(pr, band, base, items', m')
    requires forall k :: 0 <= k < |band| ==> (Landed(items[k]) <==> Landed(items'[k]))
    ensures m == m'
  {
    forall l | l in base ensures m[l] == m'[l] {
      assert LocationOk(pr, band, base, items, m, l) && LocationOk(pr, band, base, items', m', l);
    }
  }

  function Prefix(size: nat, n: nat): seq<Item> {
    seq(size, k => if k < n then Counted else Free)
  }

  /** The sequential band, too, is a merge: of its first `n` items. */
  lemma {:induction false} BandIsMerged(pr: Problem, band: seq<int>, n: nat, base: Memory)
    requires DisjointItems(pr, band) && n <= |band|
    ensures Merged(pr, band, base, Prefix(|band|, n), RunBand(pr, band, n, base))
  {
    if n > 0 {
      BandIsMerged(pr, band, n - 1, base);
      var items, mem := Prefix(|band|, n - 1), RunBand(pr, band, n - 1, base);
      SnapIsUntouched(pr, band, base, items, mem, n - 1);
      LandOne(pr, band, base, items, mem, n - 1, Counted);
      assert items[n - 1 := Counted] == Prefix(|band|, n);
    } else {
      forall l | l in base ensures LocationOk(pr, band, base, Prefix(|band|, 0), base, l) {
      }
    }
  }

  /** Throughout a phase the memory is the sequential loop's memory at the start of the phase with the
      landed items merged in, and a running body has read just that starting memory. */
  ghost predicate MemInv(pr: Problem, s: State, mem0: Memory)
    requires ProblemOk(pr)
  {
    MemOk(pr, Phase(s.word), s.items, s.execs, s.mem, mem0)
  }

  ghost predicate MemOk(pr: Problem, ph: nat, items: seq<Item>, execs: seq<Pc>, mem: Memory, mem0: Memory)
    requires ProblemOk(pr)
  {
    var base := RunPhases(pr, ph, mem0);
    if ph < Total(pr) then
      && Merged(pr, BandOf(pr, ph), base, items, mem)
      && (forall e :: 0 <= e < |execs| ==> SnapOk(pr, execs[e], base))
    else mem == base
  }

  ghost predicate SnapOk(pr: Problem, pc: Pc, base: Memory)
    requires ProblemOk(pr)
  {
    pc.Busy? && pc.snap.Some? && pc.i < |BandOf(pr, pc.ph)| ==>
      pc.snap.value == Snap(pr, BandOf(pr, pc.ph)[pc.i], base)
  }

  /** Nothing landed, no body began: the memory invariant stays. */
  lemma SameMem(pr: Problem, ph: nat, items: seq<Item>, items': seq<Item>, execs: seq<Pc>, execs': seq<Pc>, mem: Memory, mem0: Memory)
    requires ProblemOk(pr) && MemOk(pr, ph, items, execs, mem, mem0) && |items'| == |items| && |execs'| == |execs|
    requires forall k :: 0 <= k < |items| ==> (Landed(items'[k]) <==> Landed(items[k]))
    requires forall e :: 0 <= e < |execs| ==> execs'[e] == execs[e] || !execs'[e].Busy? || execs'[e].snap == None
    ensures MemOk(pr, ph, items', execs', mem, mem0)
  {
    if ph < Total(pr) {
      var base, band := RunPhases(pr, ph, mem0), BandOf(pr, ph);
      forall x | x in base ensures LocationOk(pr, band, base, items', mem, x) {
        assert LocationOk(pr, band, base, items, mem, x);
      }
      forall d | 0 <= d < |execs'| ensures SnapOk(pr, execs'[d], base) {
        assert SnapOk(pr, execs[d], base);
      }
    }
  }

  /** A phase starts with its starting memory. */
  lemma FreshMem(pr: Problem, ph: nat, items: seq<Item>, execs: seq<Pc>, mem: Memory, mem0: Memory)
    requires ProblemOk(pr) && mem == RunPhases(pr, ph, mem0)
    requires ph < Total(pr) ==> |items| == |BandOf(pr, ph)| && forall k :: 0 <= k < |items| ==> items[k] == Free
    requires forall e :: 0 <= e < |execs| ==> !execs[e].Busy?
    ensures MemOk(pr, ph, items, execs, mem, mem0)
  {
    if ph < Total(pr) {
      forall x | x in mem ensures LocationOk(pr, BandOf(pr, ph), mem, items, mem, x) {
      }
    }
  }

  lemma BeginKeepsMem(pr: Problem, s: State, e: nat, mem0: Memory)
    requires Ctl(pr, s) && Coloured(pr) && MemInv(pr, s, mem0) && Enabled(pr, s, Begin(e))
    ensures MemInv(pr, Next(pr, s, Begin(e)), mem0)
  {
    LocalStep(pr, s, Begin(e));
    var base := RunPhases(pr, Phase(s.word), mem0);
    var band := BandOf(pr, Phase(s.word));
    assert PcInv(pr, s, e) && Agrees(s.items, s.execs[e], e);
    var i := s.execs[e].i;
    assert InHand(s.execs[e], i);
    SnapIsUntouched(pr, band, base, s.items, s.mem, i);
  }

  lemma EndKeepsMem(pr: Problem, s: State, e: nat, mem0: Memory)
    requires Ctl(pr, s) && Coloured(pr) && MemInv(pr, s, mem0) && Enabled(pr, s, End(e))
    ensures MemInv(pr, Next(pr, s, End(e)), mem0)
  {
    EndStep(pr, s, e);
    var base := RunPhases(pr, Phase(s.word), mem0);
    var band := BandOf(pr, Phase(s.word));
    assert PcInv(pr, s, e);
    var i := s.execs[e].i;
    assert SnapOk(pr, s.execs[e], base);
    LandOne(pr, band, base, s.items, s.mem, i, Ran(e));
    var s' := Next(pr, s, End(e));
    forall d | 0 <= d < |s'.execs| ensures SnapOk(pr, s'.execs[d], base) {
      assert SnapOk(pr, s.execs[d], base);
    }
  }

  /** Steps that neither read nor write the memory nor change the phase. */
  lemma OtherKeepsMem(pr: Problem, s: State, l: Label, mem0: Memory)
    requires Ctl(pr, s) && MemInv(pr, s, mem0) && Enabled(pr, s, l)
    requires !l.Begin? && !l.End? && !l.Publish? && !l.Terminate?
    ensures MemInv(pr, Next(pr, s, l), mem0)
  {
    var s' := Next(pr, s, l);
    LandedSame(pr, s, l);
    SameMem(pr, Phase(s.word), s.items, s'.items, s.execs, s'.execs, s.mem, mem0);
  }

  lemma LandedSame(pr: Problem, s: State, l: Label)
    requires Ctl(pr, s) && Enabled(pr, s, l)
    requires !l.Begin? && !l.End? && !l.Publish? && !l.Terminate?
    ensures var s' := Next(pr, s, l);
      && s'.mem == s.mem && Phase(s'.word) == Phase(s.word) && |s'.items| == |s.items|
      && (forall k :: 0 <= k < |s.items| ==> (Landed(s'.items[k]) <==> Landed(s.items[k])))
      && |s'.execs| == |s.execs|
      && (forall d :: 0 <= d < |s.execs| ==> s'.execs[d] == s.execs[d] || !s'.execs[d].Busy? || s'.execs[d].snap == None)
  {
    assert PcInv(pr, s, l.e) && Agrees(s.items, s.execs[l.e], l.e);
    if l.Cas? && !LocalLabel(s, l) {
      ClaimTakesFreeItems(pr, s, l.e);
    } else if l.Count? {
      assert forall k :: 0 <= k < |s.items| ==> (InHand(s.execs[l.e], k) ==> s.items[k] == Ran(l.e));
    }
  }

  /** With every item of the band counted the memory is that after one more phase. */
  lemma BandIsDone(pr: Problem, s: State, l: Label, mem0: Memory)
    requires Ctl(pr, s) && Coloured(pr) && MemInv(pr, s, mem0) && Enabled(pr, s, l) && (l.Publish? || l.Terminate?)
    ensures Phase(s.word) < Total(pr) && s.mem == RunPhases(pr, Phase(s.word) + 1, mem0)
  {
    assert PcInv(pr, s, l.e);
    LeaderIsAlone(pr, s);
    var ph := Phase(s.word);
    var base, band := RunPhases(pr, ph, mem0), BandOf(pr, ph);
    BandIsMerged(pr, band, |band|, base);
    MergedIsUnique(pr, band, base, s.items, Prefix(|band|, |band|), s.mem, RunBand(pr, band, |band|, base));
  }

  lemma AdvanceKeepsMem(pr: Problem, s: State, l: Label, mem0: Memory)
    requires Ctl(pr, s) && Coloured(pr) && MemInv(pr, s, mem0) && Enabled(pr, s, l) && (l.Publish? || l.Terminate?)
    ensures MemInv(pr, Next(pr, s, l), mem0)
  {
    BandIsDone(pr, s, l, mem0);
    assert PcInv(pr, s, l.e);
    LeaderIsAlone(pr, s);
    PackUnpack(Phase(s.word) + 1, 0);
    var s' := Next(pr, s, l);
    assert forall e :: 0 <= e < |s'.execs| ==> !s'.execs[e].Busy?;
    FreshMem(pr, Phase(s.word) + 1, s'.items, s'.execs, s.mem, mem0);
  }

  lemma StepKeepsMem(pr: Problem, s: State, l: Label, mem0: Memory)
    requires Ctl(pr, s) && Coloured(pr) && MemInv(pr, s, mem0) && Enabled(pr, s, l)
    ensures MemInv(pr, Next(pr, s, l), mem0)
  {
    match l
    case Begin(e) => BeginKeepsMem(pr, s, e, mem0);
    case End(e) => EndKeepsMem(pr, s, e, mem0);
    case Publish(_) => AdvanceKeepsMem(pr, s, l, mem0);
    case Terminate(_) => AdvanceKeepsMem(pr, s, l, mem0);
    case _ => OtherKeepsMem(pr, s, l, mem0);
  }

  // ---- every run ---------------------------------------------------------------------------------------

  predicate Step(pr: Problem, s: State, l: Label, s': State) {
    Ctl(pr, s) ==> Enabled(pr, s, l) && s' == Next(pr, s, l)
  }

  predicate IsRun(pr: Problem, executors: nat, mem0: Memory, states: seq<State>, labels: seq<Label>) {
    && ProblemOk(pr) && |states| == |labels| + 1 && states[0] == Start(pr, executors, mem0)
    && forall k :: 0 <= k < |labels| ==> Step(pr, states[k], labels[k], states[k + 1])
  }

  /** Words, phases, claims and counts fit together in every run, coloured or not. */
  lemma {:induction false} RunKeepsCtl(pr: Problem, executors: nat, mem0: Memory, states: seq<State>, labels: seq<Label>, t: nat)
    requires IsRun(pr, executors, mem0, states, labels) && t < |states|
    ensures Ctl(pr, states[t]) && |states[t].execs| == executors
    decreases t
  {
    if t == 0 {
      StartOk(pr, executors, mem0);
    } else {
      RunKeepsCtl(pr, executors, mem0, states, labels, t - 1);
      assert Step(pr, states[t - 1], labels[t - 1], states[t]);
      StepKeepsCtl(pr, states[t - 1], labels[t - 1]);
    }
  }

  lemma {:induction false} RunKeepsMem(pr: Problem, executors: nat, mem0: Memory, states: seq<State>, labels: seq<Label>, t: nat)
    requires IsRun(pr, executors, mem0, states, labels) && Coloured(pr) && t < |states|
    ensures Ctl(pr, states[t]) && MemInv(pr, states[t], mem0)
    decreases t
  {
    RunKeepsCtl(pr, executors, mem0, states, labels, t);
    if t == 0 {
      FreshMem(pr, 0, states[0].items, states[0].execs, mem0, mem0);
    } else {
      RunKeepsMem(pr, executors, mem0, states, labels, t - 1);
      assert Step(pr, states[t - 1], labels[t - 1], states[t]);
      StepKeepsMem(pr, states[t - 1], labels[t - 1], mem0);
    }
  }

  /** Determinism: with a valid colouring, whatever the number of executors, the claim sizes and the
      interleaving of claims and of the bodies' reads and writes, the loop completes at most once, and
      when it has completed the memory is that of the sequential rounds-by-bands-by-items loop. */
  lemma EndsLikeTheSequentialLoop(pr: Problem, executors: nat, mem0: Memory, states: seq<State>, labels: seq<Label>, t: nat)
    requires IsRun(pr, executors, mem0, states, labels) && Coloured(pr) && t < |states|
    ensures states[t].completes <= 1
    ensures states[t].completes == 1 ==> states[t].mem == RunPhases(pr, Total(pr), mem0)
  {
    RunKeepsMem(pr, executors, mem0, states, labels, t);
    PackUnpack(Total(pr), 0);
  }
}
