/** The coloured loop as it is called (`parallel_for_colored`, include/ts/parallel_for.h): any bands, any
    number of rounds, and the plain nested loop it stands for. */
module ColouredEntry {
  import opened Pipes
  import opened ColouredLoop
  import opened ColouredProgress
  import opened Arithmetic

  // ---- the plain loop ------------------------------------------------------------------------------

  /** What one band's body loop does to a memory. */
  type Runner<!M> = (seq<int>, M) -> M

  /** One round over the first `b` bands. */
  function FoldBands<M>(run: Runner<M>, bands: seq<seq<int>>, b: nat, m: M): M
    requires b <= |bands|
  {
    if b == 0 then m else run(bands[b - 1], FoldBands(run, bands, b - 1, m))
  }

  /** `rounds` rounds over all bands, empty ones included; none if `rounds` is not positive. */
  function FoldRounds<M>(run: Runner<M>, bands: seq<seq<int>>, rounds: int, m: M): M {
    if rounds <= 0 then m else FoldBands(run, bands, |bands|, FoldRounds(run, bands, rounds - 1, m))
  }

  /** The first `phases` bands of the endless walk through the bands, round after round. */
  function FoldPhases<M>(run: Runner<M>, bands: seq<seq<int>>, phases: nat, m: M): M
    requires bands != []
  {
    if phases == 0 then m else run(bands[(phases - 1) % |bands|], FoldPhases(run, bands, phases - 1, m))
  }

  /** All items of a band, in order. */
  function BandRunner(pr: Problem): Runner<Memory> {
    (band, mem) => RunBand(pr, band, |band|, mem)
  }

  /** The plain loop: rounds by bands by items. */
  function RunRounds(pr: Problem, bands: seq<seq<int>>, rounds: int, mem: Memory): Memory {
    FoldRounds(BandRunner(pr), bands, rounds, mem)
  }

  // ---- what the plain loop is ------------------------------------------------------------------------

  lemma OneBand(pr: Problem, band: seq<int>, mem: Memory)
    ensures RunRounds(pr, [band], 1, mem) == RunBand(pr, band, |band|, mem)
  {
    var run := BandRunner(pr);
    assert FoldRounds(run, [band], 0, mem) == mem;
    assert FoldBands(run, [band], 0, mem) == mem;
    assert FoldBands(run, [band], 1, mem) == run([band][0], mem);
  }

  /** One item is one call of the body, on what is at the item's locations. */
  lemma OneItem(pr: Problem, item: int, mem: Memory)
    ensures var seen := map x | x in mem && x in pr.footprint(item) :: mem[x];
      RunRounds(pr, [[item]], 1, mem) ==
        map l | l in mem :: if l in pr.footprint(item) && l in pr.body(item, seen) then pr.body(item, seen)[l] else mem[l]
  {
    OneBand(pr, [item], mem);
    assert RunBand(pr, [item], 0, mem) == mem;
    assert RunBand(pr, [item], 1, mem) == RunItem(pr, [item][0], mem);
    ItemCallsBody(pr, item, mem);
  }

  lemma {:induction false} BandsConcatenate(pr: Problem, a: seq<int>, b: seq<int>, n: nat, mem: Memory)
    requires n <= |b|
    ensures RunBand(pr, a + b, |a| + n, mem) == RunBand(pr, b, n, RunBand(pr, a, |a|, mem))
    decreases n
  {
    if n == 0 {
      BandPrefix(pr, a, b, |a|, mem);
    } else {
      BandsConcatenate(pr, a, b, n - 1, mem);
      assert (a + b)[|a| + n - 1] == b[n - 1];
    }
  }

  lemma {:induction false} BandPrefix(pr: Problem, a: seq<int>, b: seq<int>, n: nat, mem: Memory)
    requires n <= |a|
    ensures RunBand(pr, a + b, n, mem) == RunBand(pr, a, n, mem)
    decreases n
  {
    if n > 0 {
      BandPrefix(pr, a, b, n - 1, mem);
    }
  }

  lemma {:induction false} FoldsConcatenate<M>(run: Runner<M>, a: seq<seq<int>>, b: seq<seq<int>>, n: nat, m: M)
    requires n <= |b|
    ensures FoldBands(run, a + b, |a| + n, m) == FoldBands(run, b, n, FoldBands(run, a, |a|, m))
    decreases n
  {
    if n == 0 {
      FoldPrefix(run, a, b, |a|, m);
    } else {
      FoldsConcatenate(run, a, b, n - 1, m);
      assert (a + b)[|a| + n - 1] == b[n - 1];
    }
  }

  lemma OneRound<M>(run: Runner<M>, bands: seq<seq<int>>, m: M)
    ensures FoldRounds(run, bands, 1, m) == FoldBands(run, bands, |bands|, m)
  {
    assert FoldRounds(run, bands, 0, m) == m;
  }

  lemma ItemsInOrder(pr: Problem, a: seq<int>, b: seq<int>, mem: Memory)
    ensures RunRounds(pr, [a + b], 1, mem) == RunRounds(pr, [b], 1, RunRounds(pr, [a], 1, mem))
  {
    OneBand(pr, a, mem);
    OneBand(pr, b, RunRounds(pr, [a], 1, mem));
    OneBand(pr, a + b, mem);
    BandsConcatenate(pr, a, b, |b|, mem);
  }

  lemma BandsInOrder<M>(run: Runner<M>, bands: seq<seq<int>>, more: seq<seq<int>>, m: M)
    ensures FoldRounds(run, bands + more, 1, m) == FoldRounds(run, more, 1, FoldRounds(run, bands, 1, m))
  {
    OneRound(run, bands + more, m);
    OneRound(run, bands, m);
    OneRound(run, more, FoldRounds(run, bands, 1, m));
    FoldsConcatenate(run, bands, more, |more|, m);
  }

  /** The plain loop goes through the items of a band, the bands of a round and the rounds one after
      another, each from the memory the last one left.  With OneItem this determines it. */
  lemma OneAfterAnother(pr: Problem, a: seq<int>, b: seq<int>, bands: seq<seq<int>>, more: seq<seq<int>>, rounds: nat, mem: Memory)
    ensures RunRounds(pr, [a + b], 1, mem) == RunRounds(pr, [b], 1, RunRounds(pr, [a], 1, mem))
    ensures RunRounds(pr, bands + more, 1, mem) == RunRounds(pr, more, 1, RunRounds(pr, bands, 1, mem))
    ensures RunRounds(pr, bands, rounds + 1, mem) == RunRounds(pr, bands, 1, RunRounds(pr, bands, rounds, mem))
    ensures RunRounds(pr, bands, 0, mem) == RunRounds(pr, [], rounds, mem) == mem
  {
    ItemsInOrder(pr, a, b, mem);
    BandsInOrder(BandRunner(pr), bands, more, mem);
    OneRound(BandRunner(pr), bands, RunRounds(pr, bands, rounds, mem));
    NothingToDo(BandRunner(pr), [], rounds, mem);
  }

  /** With disjoint items the order within a band does not show: every location of an item holds what that
      item's body makes of the memory before the band, and all others are as they were. */
  lemma BandCallsBodies(pr: Problem, band: seq<int>, mem: Memory, l: int)
    requires DisjointItems(pr, band) && l in mem
    ensures l in RunRounds(pr, [band], 1, mem)
    ensures forall k :: 0 <= k < |band| && l in pr.footprint(band[k]) ==>
      var out := pr.body(band[k], map x | x in mem && x in pr.footprint(band[k]) :: mem[x]);
      RunRounds(pr, [band], 1, mem)[l] == if l in out then out[l] else mem[l]
    ensures (forall k :: 0 <= k < |band| ==> l !in pr.footprint(band[k])) ==> RunRounds(pr, [band], 1, mem)[l] == mem[l]
  {
    OneBand(pr, band, mem);
    BandIsMerged(pr, band, |band|, mem);
    assert LocationOk(pr, band, mem, Prefix(|band|, |band|), RunBand(pr, band, |band|, mem), l);
    forall k | 0 <= k < |band| && l in pr.footprint(band[k])
      ensures var out := pr.body(band[k], map x | x in mem && x in pr.footprint(band[k]) :: mem[x]);
        RunBand(pr, band, |band|, mem)[l] == if l in out then out[l] else mem[l]
    {
      assert Snap(pr, band[k], mem) == map x | x in mem && x in pr.footprint(band[k]) :: mem[x];
    }
  }

  /** The bands worth visiting, of the first `b`. */
  function Kept(bands: seq<seq<int>>, b: nat): seq<seq<int>>
    requires b <= |bands|
  {
    if b == 0 then [] else
    var before := Kept(bands, b - 1);
    if bands[b - 1] == [] then before else before + [bands[b - 1]]
  }

  lemma {:induction false} KeptAreBands(bands: seq<seq<int>>, b: nat)
    requires b <= |bands|
    ensures forall k :: 0 <= k < |Kept(bands, b)| ==> Kept(bands, b)[k] in bands && Kept(bands, b)[k] != []
    ensures Kept(bands, b) == [] <==> forall k :: 0 <= k < b ==> bands[k] == []
    decreases b
  {
    if b > 0 {
      KeptAreBands(bands, b - 1);
    }
  }

  lemma {:induction false} FoldPrefix<M>(run: Runner<M>, bands: seq<seq<int>>, more: seq<seq<int>>, b: nat, m: M)
    requires b <= |bands|
    ensures FoldBands(run, bands + more, b, m) == FoldBands(run, bands, b, m)
    decreases b
  {
    if b > 0 {
      FoldPrefix(run, bands, more, b - 1, m);
    }
  }

  /** Leaving out the empty bands changes nothing. */
  lemma {:induction false} EmptyBandsDoNothing<M(!new)>(run: Runner<M>, bands: seq<seq<int>>, b: nat, m: M)
    requires b <= |bands| && forall x: M :: run([], x) == x
    ensures FoldBands(run, bands, b, m) == FoldBands(run, Kept(bands, b), |Kept(bands, b)|, m)
    decreases b
  {
    if b > 0 {
      EmptyBandsDoNothing(run, bands, b - 1, m);
      var before, band := Kept(bands, b - 1), bands[b - 1];
      if band != [] {
        FoldPrefix(run, before, [band], |before|, m);
      }
    }
  }

  lemma {:induction false} RoundsWithoutEmpties<M(!new)>(run: Runner<M>, bands: seq<seq<int>>, rounds: int, m: M)
    requires forall x: M :: run([], x) == x
    ensures FoldRounds(run, bands, rounds, m) == FoldRounds(run, Kept(bands, |bands|), rounds, m)
    decreases rounds
  {
    if rounds > 0 {
      RoundsWithoutEmpties(run, bands, rounds - 1, m);
      EmptyBandsDoNothing(run, bands, |bands|, FoldRounds(run, bands, rounds - 1, m));
    }
  }

  lemma PhaseOfRound(n: nat, r: nat, start: nat, b: nat)
    requires b < n && start == r * n
    ensures (start + b) % n == b
  {
    var x := start + b;
    DivIs(x, n, r);
    assert x == (x / n) * n + x % n;
  }

  /** Within one round the phases are its bands. */
  lemma {:induction false} PhasesOfARound<M>(run: Runner<M>, bands: seq<seq<int>>, r: nat, start: nat, b: nat, m: M)
    requires bands != [] && b <= |bands| && start == r * |bands|
    ensures FoldPhases(run, bands, start + b, m) == FoldBands(run, bands, b, FoldPhases(run, bands, start, m))
    decreases b
  {
    if b > 0 {
      PhasesOfARound(run, bands, r, start, b - 1, m);
      PhaseOfRound(|bands|, r, start, b - 1);
    }
  }

  /** The phase counter walks through rounds and bands in the order of the nested loop. */
  lemma {:induction false} PhasesAreRounds<M>(run: Runner<M>, bands: seq<seq<int>>, r: nat, phases: nat, m: M)
    requires bands != [] && phases == r * |bands|
    ensures FoldPhases(run, bands, phases, m) == FoldRounds(run, bands, r, m)
    decreases r
  {
    if r > 0 {
      var start := phases - |bands|;
      assert start == (r - 1) * |bands|;
      PhasesAreRounds(run, bands, r - 1, start, m);
      PhasesOfARound(run, bands, r - 1, start, |bands|, m);
    }
  }

  lemma {:induction false} PhasesFold(pr: Problem, phases: nat, mem: Memory)
    requires ProblemOk(pr)
    ensures RunPhases(pr, phases, mem) == FoldPhases(BandRunner(pr), pr.bands, phases, mem)
    decreases phases
  {
    if phases > 0 {
      PhasesFold(pr, phases - 1, mem);
    }
  }

  /** All phases of the coloured loop are the plain loop over its bands. */
  lemma PhasesAreThePlainLoop(pr: Problem, mem: Memory)
    requires ProblemOk(pr)
    ensures RunPhases(pr, Total(pr), mem) == RunRounds(pr, pr.bands, pr.rounds, mem)
  {
    PhasesFold(pr, Total(pr), mem);
    PhasesAreRounds(BandRunner(pr), pr.bands, pr.rounds, Total(pr), mem);
  }

  // ---- the call ------------------------------------------------------------------------------------

  /** `w` is the number of workers asked for, brought within 1 .. items. */
  predicate Clamped(w: int, maxWorkers: int, pool: int, items: nat) {
    var asked := if maxWorkers > 0 then maxWorkers else pool;
    1 <= w <= items && (w == asked || (asked < 1 && w == 1) || (asked > items && w == items))
  }

  /** The executor count: the option, else the pool's size, within 1 .. items. */
  function EffectiveWorkers(maxWorkers: int, pool: int, items: nat): (w: int)
    requires items > 0
    ensures Clamped(w, maxWorkers, pool, items)
  {
    var workers := if maxWorkers > 0 then maxWorkers else pool;
    var atLeast := if workers < 1 then 1 else workers;
    if atLeast > items then items else atLeast
  }

  /** No band is wider, and one is as wide. */
  predicate Widest(bands: seq<seq<int>>, widest: nat) {
    (forall b :: 0 <= b < |bands| ==> |bands[b]| <= widest) && (widest == 0 || exists b :: 0 <= b < |bands| && |bands[b]| == widest)
  }

  /** Sets the loop up, or returns at once (`None`) when there is nothing to do. */
  method Prepare(job: Problem, bands: seq<seq<int>>, rounds: int, maxWorkers: int, pool: int) returns (r: Option<Problem>)
    requires forall b :: 0 <= b < |bands| ==> |bands[b]| <= 0x7fff_ffff
    ensures r.None? <==> rounds <= 0 || forall b :: 0 <= b < |bands| ==> bands[b] == []
    ensures r.Some? ==> ProblemOk(r.value) && r.value.bands == Kept(bands, |bands|) && r.value.rounds == rounds
    ensures r.Some? ==> r.value.footprint == job.footprint && r.value.body == job.body && r.value.balance == job.balance
    ensures r.Some? ==> exists widest: nat :: Widest(bands, widest) && Clamped(r.value.workers, maxWorkers, pool, widest)
  {
    var widest := 0;
    for b := 0 to |bands|
      invariant widest >= 0 && Widest(bands[..b], widest)
      invariant widest == 0 <==> forall k :: 0 <= k < b ==> bands[k] == []
    {
      assert bands[..b + 1] == bands[..b] + [bands[b]];
      if |bands[b]| > widest {
        widest := |bands[b]|;
        assert |bands[..b + 1][b]| == widest;
      } else if widest > 0 {
        var k :| 0 <= k < b && |bands[..b][k]| == widest;
        assert |bands[..b + 1][k]| == widest;
      }
    }
    assert bands[..|bands|] == bands;
    if rounds <= 0 || widest == 0 {
      return None;
    }
    var workers := EffectiveWorkers(maxWorkers, pool, widest);
    var kept: seq<seq<int>> := [];
    for b := 0 to |bands|
      invariant kept == Kept(bands, b)
    {
      if bands[b] != [] {
        kept := kept + [bands[b]];
      }
    }
    KeptAreBands(bands, |bands|);
    return Some(job.(bands := kept, rounds := rounds, workers := workers));
  }

  /** Bit-determinism: if the items of each band touch disjoint locations, then under every interleaving,
      with any number of executors and any grains, the loop completes in exactly the memory that the
      plain rounds-by-bands-by-items loop over all the bands gives; when it returns at once, that loop
      does nothing. */
  lemma DeterministicUnderAnySchedule(pr: Problem, bands: seq<seq<int>>, rounds: int, executors: nat, mem0: Memory,
                                      states: seq<State>, labels: seq<Label>, t: nat)
    requires forall b :: 0 <= b < |bands| ==> DisjointItems(pr, bands[b])
    requires ProblemOk(pr) && pr.bands == Kept(bands, |bands|) && pr.rounds == rounds
    requires IsRun(pr, executors, mem0, states, labels) && t < |states|
    ensures states[t].completes <= 1
    ensures states[t].completes == 1 ==> states[t].mem == RunRounds(pr, bands, rounds, mem0)
  {
    KeptAreBands(bands, |bands|);
    forall b | 0 <= b < |pr.bands| ensures DisjointItems(pr, pr.bands[b]) {
      assert pr.bands[b] in bands;
    }
    EndsLikeTheSequentialLoop(pr, executors, mem0, states, labels, t);
    PhasesAreThePlainLoop(pr, mem0);
    RoundsWithoutEmpties(BandRunner(pr), bands, rounds, mem0);
  }

  /** And it does complete: a run in which no productive step is left has that memory. */
  lemma EveryCallEndsLikeThePlainLoop(pr: Problem, bands: seq<seq<int>>, rounds: int, executors: nat, mem0: Memory,
                                      states: seq<State>, labels: seq<Label>)
    requires forall b :: 0 <= b < |bands| ==> DisjointItems(pr, bands[b])
    requires ProblemOk(pr) && pr.bands == Kept(bands, |bands|) && pr.rounds == rounds
    requires IsRun(pr, executors, mem0, states, labels) && executors > 0
    ensures Moves(labels, |labels|) <= Work(pr, states[0]) + 3 * (|labels| - Moves(labels, |labels|))
    ensures (forall l :: Enabled(pr, states[|labels|], l) ==> !Productive(l)) ==>
      states[|labels|].mem == RunRounds(pr, bands, rounds, mem0)
  {
    EveryLoopCompletes(pr, executors, mem0, states, labels);
    DeterministicUnderAnySchedule(pr, bands, rounds, executors, mem0, states, labels, |labels|);
  }

  lemma {:induction false} NothingToDo<M(!new)>(run: Runner<M>, bands: seq<seq<int>>, rounds: int, m: M)
    requires forall x: M :: run([], x) == x
    requires rounds <= 0 || forall b :: 0 <= b < |bands| ==> bands[b] == []
    ensures FoldRounds(run, bands, rounds, m) == m
    decreases rounds
  {
    if rounds > 0 {
      NothingToDo(run, bands, rounds - 1, m);
      KeptAreBands(bands, |bands|);
      EmptyBandsDoNothing(run, bands, |bands|, m);
    }
  }

  /** When the call returns at once, the plain loop does nothing either. */
  lemma ReturnsAtOnceRightly(pr: Problem, bands: seq<seq<int>>, rounds: int, mem: Memory)
    requires rounds <= 0 || forall b :: 0 <= b < |bands| ==> bands[b] == []
    ensures RunRounds(pr, bands, rounds, mem) == mem
  {
    NothingToDo(BandRunner(pr), bands, rounds, mem);
  }
}
