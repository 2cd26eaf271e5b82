/** The coloured loop ends: every productive step of every interleaving uses up a measure, so a run with
    finitely many yields and spurious claim failures completes. */
module ColouredProgress {
  import opened Pipes
  import opened ColouredLoop
  import opened Arithmetic
  import Chunks

  /** What an executor still has to do before it claims again; a copy of the word that is out of date
      costs a reload. */
  function PcWork(pc: Pc, word: nat): nat {
    match pc
    case Loading => 6
    case Have(cur) => if cur == word then 3 else 5
    case Waits(cur) => if cur == word then 1 else 4
    case Busy(_, _, i, stop, snap) => 7 + 2 * (if stop >= i then stop - i else 0) - (if snap.Some? then 1 else 0)
    case Resetting(_) => 6
    case Publishing(_) => 5
    case Finishing(_) => 6
    case Completing => 5
    case Exited => 0
  }

  function Worker(word: nat): Pc -> nat {
    pc => PcWork(pc, word)
  }

  /** The items of all phases from `ph` on. */
  function ItemsFrom(pr: Problem, ph: nat): nat
    requires ProblemOk(pr)
    decreases Total(pr) - ph
  {
    if ph >= Total(pr) then 0 else |BandOf(pr, ph)| + ItemsFrom(pr, ph + 1)
  }

  /** Items not claimed yet, and phases not over yet. */
  function Left(pr: Problem, word: nat): int
    requires ProblemOk(pr)
  {
    if Phase(word) >= Total(pr) then 0 else ItemsFrom(pr, Phase(word)) - Index(word) + (Total(pr) - Phase(word))
  }

  /** A claimed item or a finished phase is worth more than a reload by every executor. */
  function Worth(executors: nat): nat {
    3 * executors + 10
  }

  function Work(pr: Problem, s: State): int
    requires ProblemOk(pr)
  {
    Worth(|s.execs|) * Left(pr, s.word) + Chunks.Sum(s.execs, Worker(s.word))
  }

  /** A step that leaves the word alone and takes its executor closer by at least `gain`. */
  lemma LocalWork(pr: Problem, s: State, s': State, e: nat, gain: int)
    requires ProblemOk(pr) && e < |s.execs| == |s'.execs| && s'.word == s.word && s'.execs == s.execs[e := s'.execs[e]]
    requires PcWork(s'.execs[e], s.word) <= PcWork(s.execs[e], s.word) - gain
    ensures Work(pr, s') <= Work(pr, s) - gain
  {
    Chunks.SumUpdate(s.execs, Worker(s.word), e, s'.execs[e]);
  }

  lemma StaleIsDearer(pc: Pc, w: nat, w': nat)
    ensures PcWork(pc, w') <= PcWork(pc, w) + 3
  {
  }

  lemma WorthPays(executors: nat, g: nat)
    requires g >= 1
    ensures Worth(executors) * g > 3 * executors + 4 + 2 * g
  {
    Monotone(1, g, 3 * executors);
    assert Worth(executors) * g == 3 * executors * g + 10 * g;
  }

  /** A step that moves the word on by `g`: the others' copies go out of date, which `g` pays for. */
  lemma WordWork(pr: Problem, s: State, s': State, e: nat, g: nat)
    requires ProblemOk(pr) && e < |s.execs| == |s'.execs| && s'.execs == s.execs[e := s'.execs[e]] && g >= 1
    requires PcWork(s'.execs[e], s'.word) <= PcWork(s.execs[e], s.word) + 4 + 2 * g
    requires Left(pr, s'.word) <= Left(pr, s.word) - g
    ensures Work(pr, s') < Work(pr, s)
  {
    var f, f' := Worker(s.word), Worker(s'.word);
    var n := |s.execs|;
    forall k | 0 <= k < n ensures f'(s.execs[k]) <= f(s.execs[k]) + 3 {
      StaleIsDearer(s.execs[k], s.word, s'.word);
    }
    SumOfOthers(s.execs, f, f', e, s'.execs[e], 4 + 2 * g);
    WorthPays(n, g);
    Balance(Worth(n), Left(pr, s.word), Left(pr, s'.word), g,
            Chunks.Sum(s.execs, f), Chunks.Sum(s'.execs, f'), 3 * n + 4 + 2 * g);
  }

  lemma Balance(worth: nat, left: int, left': int, g: nat, sum: int, sum': int, cost: int)
    requires worth * g > cost && left' <= left - g && sum' <= sum + cost
    ensures worth * left' + sum' < worth * left + sum
  {
    Monotone(left', left - g, worth);
    Distribute(worth, left - g, g);
    assert (left - g) + g == left;
    assert left' * worth == worth * left' && (left - g) * worth == worth * (left - g);
  }

  lemma SumOfOthers(execs: seq<Pc>, f: Pc -> nat, f': Pc -> nat, e: nat, pc: Pc, d: nat)
    requires e < |execs| && f'(pc) <= f(execs[e]) + d && forall k :: 0 <= k < |execs| ==> f'(execs[k]) <= f(execs[k]) + 3
    ensures Chunks.Sum(execs[e := pc], f') <= Chunks.Sum(execs, f) + 3 * |execs| + d
    decreases |execs|
  {
    var n := |execs| - 1;
    if e == n {
      assert execs[e := pc][..n] == execs[..n];
      Chunks.SumGrows(execs[..n], f, f', 3);
    } else {
      assert execs[e := pc][..n] == execs[..n][e := pc];
      SumOfOthers(execs[..n], f, f', e, pc, d);
    }
  }

  // ---- each step -------------------------------------------------------------------------------------

  /** Steps that leave the word alone. */
  predicate Quiet(s: State, l: Label) {
    LocalLabel(s, l) || l.End? || l.Count? || l.Reset? || l.Complete?
  }

  lemma QuietShrinks(pr: Problem, s: State, l: Label)
    requires Ctl(pr, s) && Enabled(pr, s, l) && Quiet(s, l)
    ensures Work(pr, Next(pr, s, l)) <= Work(pr, s) - (if Productive(l) then 1 else -3)
  {
    var s' := Next(pr, s, l);
    assert PcInv(pr, s, l.e);
    LocalWork(pr, s, s', l.e, if Productive(l) then 1 else -3);
  }

  lemma ClaimShrinks(pr: Problem, s: State, e: nat)
    requires Ctl(pr, s) && Enabled(pr, s, Cas(e, false)) && s.word == s.execs[e].cur
    ensures Work(pr, Next(pr, s, Cas(e, false))) < Work(pr, s)
  {
    var s' := Next(pr, s, Cas(e, false));
    ClaimTakesFreeItems(pr, s, e);
    WordWork(pr, s, s', e, Index(s'.word) - Index(s.word));
  }

  lemma AdvanceShrinks(pr: Problem, s: State, l: Label)
    requires Ctl(pr, s) && Enabled(pr, s, l) && (l.Publish? || l.Terminate?)
    ensures Work(pr, Next(pr, s, l)) < Work(pr, s)
  {
    var s' := Next(pr, s, l);
    assert PcInv(pr, s, l.e);
    PackUnpack(Phase(s.word) + 1, 0);
    PackUnpack(Total(pr), 0);
    WordWork(pr, s, s', l.e, 1);
  }

  /** Every productive step shrinks the work; a yield or a spurious failure adds at most three. */
  lemma StepShrinksWork(pr: Problem, s: State, l: Label)
    requires Ctl(pr, s) && Enabled(pr, s, l)
    ensures Work(pr, Next(pr, s, l)) <= Work(pr, s) - (if Productive(l) then 1 else -3)
  {
    if Quiet(s, l) {
      QuietShrinks(pr, s, l);
    } else if l.Cas? {
      ClaimShrinks(pr, s, l.e);
    } else {
      AdvanceShrinks(pr, s, l);
    }
  }

  // ---- every run -------------------------------------------------------------------------------------

  function Moves(labels: seq<Label>, k: nat): nat
    requires k <= |labels|
  {
    if k == 0 then 0 else Moves(labels, k - 1) + (if Productive(labels[k - 1]) then 1 else 0)
  }

  lemma WorkIsNatural(pr: Problem, s: State)
    requires Ctl(pr, s)
    ensures Work(pr, s) >= 0
  {
    if Phase(s.word) < Total(pr) {
      assert Left(pr, s.word) >= 0;
    }
    Monotone(0, Left(pr, s.word), Worth(|s.execs|));
  }

  lemma {:induction false} MovesAreBounded(pr: Problem, executors: nat, mem0: Memory, states: seq<State>, labels: seq<Label>, k: nat)
    requires IsRun(pr, executors, mem0, states, labels) && k <= |labels|
    ensures Ctl(pr, states[k])
    ensures Work(pr, states[k]) + Moves(labels, k) <= Work(pr, states[0]) + 3 * (k - Moves(labels, k))
    decreases k
  {
    RunKeepsCtl(pr, executors, mem0, states, labels, k);
    if k > 0 {
      MovesAreBounded(pr, executors, mem0, states, labels, k - 1);
      assert Step(pr, states[k - 1], labels[k - 1], states[k]);
      StepShrinksWork(pr, states[k - 1], labels[k - 1]);
    }
  }

  /** Every run completes: the productive steps are bounded by the work at the start and the number of
      yields and spurious failures, and when no productive step is left the loop has completed once. */
  lemma EveryLoopCompletes(pr: Problem, executors: nat, mem0: Memory, states: seq<State>, labels: seq<Label>)
    requires IsRun(pr, executors, mem0, states, labels) && executors > 0
    ensures Moves(labels, |labels|) <= Work(pr, states[0]) + 3 * (|labels| - Moves(labels, |labels|))
    ensures (forall l :: Enabled(pr, states[|labels|], l) ==> !Productive(l)) ==> states[|labels|].completes == 1
  {
    MovesAreBounded(pr, executors, mem0, states, labels, |labels|);
    RunKeepsCtl(pr, executors, mem0, states, labels, |labels|);
    var s := states[|labels|];
    WorkIsNatural(pr, s);
    if s.completes == 0 {
      var l := NeverStuck(pr, s);
    }
  }

  /** With a valid colouring a finished run has the sequential loop's memory. */
  lemma FinishedRunIsSequential(pr: Problem, executors: nat, mem0: Memory, states: seq<State>, labels: seq<Label>)
    requires IsRun(pr, executors, mem0, states, labels) && executors > 0 && Coloured(pr)
    requires forall l :: Enabled(pr, states[|labels|], l) ==> !Productive(l)
    ensures states[|labels|].mem == RunPhases(pr, Total(pr), mem0)
  {
    EveryLoopCompletes(pr, executors, mem0, states, labels);
    EndsLikeTheSequentialLoop(pr, executors, mem0, states, labels, |labels|);
  }
}
