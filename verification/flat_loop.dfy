/** The flat parallel loop of include/ts/parallel_for.h: executors claim chunks of `0 .. n` with an
    atomic add (or claim everything left when cancelled), process or skip them, and account for them in
    a shared counter whose last increment settles the task. */
module FlatLoop {
  import opened Arithmetic
  import opened Chunks

  datatype Balance = Guided | Balanced | Unbalanced

  /** The size of one claim; `claimed` is a possibly outdated read of the shared counter. */
  function ClaimGrain(balance: Balance, size: nat, claimed: int, workers: int): int
    requires workers > 0
  {
    match balance
    case Unbalanced => 1
    case Balanced => var g := TruncDiv(size + workers - 1, workers); if g < 1 then 1 else g
    case Guided => var g := TruncDiv(size - claimed, 2 * workers); if g < 1 then 1 else g
  }

  /** A claim is never empty and never larger than the whole loop. */
  lemma GrainBounds(balance: Balance, size: nat, claimed: int, workers: int)
    requires workers > 0 && size > 0 && claimed >= 0
    ensures 1 <= ClaimGrain(balance, size, claimed, workers) <= size
  {
    if balance == Balanced {
      DivAtMost(size - 1, workers);
      assert size - 1 + workers == size + workers - 1;
    } else if balance == Guided && size >= claimed {
      DivAtMost(size - claimed, 2 * workers);
    } else if balance == Guided {
      DivAtMost(claimed - size, 2 * workers);
    }
  }

  /** What each policy promises of a claim of `g` when `claimed` is what the counter showed: an even share,
      half an even share of what is left, or one. */
  predicate GrainFits(balance: Balance, size: nat, claimed: int, workers: int, g: int) {
    match balance
    case Unbalanced => g == 1
    case Balanced => workers * (g - 1) < size <= workers * g
    case Guided =>
      if size - claimed < 2 * workers then g == 1
      else 2 * workers * g <= size - claimed < 2 * workers * (g + 1)
  }

  lemma GrainIsExact(balance: Balance, size: nat, claimed: int, workers: int)
    requires workers > 0 && size > 0
    ensures GrainFits(balance, size, claimed, workers, ClaimGrain(balance, size, claimed, workers))
  {
    if balance == Balanced {
      var g := (size + workers - 1) / workers;
      DivBrackets(size + workers - 1, workers);
      Distribute(workers, g - 1, 1);
      assert g * workers == workers * g;
      if g < 1 {
        Monotone(g, 0, workers);
      }
    } else if balance == Guided {
      GuidedIsExact(size - claimed, 2 * workers);
    }
  }

  lemma GuidedIsExact(left: int, share: int)
    requires share > 0
    ensures left < share ==> TruncDiv(left, share) < 1
    ensures left >= share ==> 1 <= TruncDiv(left, share) && share * TruncDiv(left, share) <= left < share * (TruncDiv(left, share) + 1)
  {
    var q := TruncDiv(left, share);
    if left < 0 {
      QuotientIsNatural(-left, share);
    } else {
      DivBrackets(left, share);
      Distribute(share, q, 1);
      assert q * share == share * q;
      if q < 1 {
        Monotone(q, 0, share);
      } else {
        Monotone(1, q, share);
      }
    }
  }

  // ---- the loop as a transition system -----------------------------------------------------------

  /** Where one index is: not claimed, claimed by an executor, its body run, taken to be skipped, or
      accounted for. */
  datatype Item = Unclaimed | Claimed(who: nat) | Processed(who: nat) | SkippedBy(who: nat) | Accounted(skipped: bool)

  /** An executor's position between its atomic operations. */
  datatype Pc =
    | Top
    | Cancelling
    | Sizing
    | Grained(g: int)
    | Chunk(start: nat, i: nat, stop: nat)
    | Flagging(start: nat, stop: nat)
    | Flagged(start: nat, stop: nat)
    | Settling
    | Exited

  datatype Config = Config(n: nat, balance: Balance, workers: int)

  /** `items`, `runs` (body calls per index) and `settles` (the settle calls, true for cancelled) are
      history; the rest is the shared state. */
  datatype State = State(
    next: int,
    done: int,
    skipped: bool,
    requested: bool,
    execs: seq<Pc>,
    items: seq<Item>,
    runs: seq<nat>,
    settles: seq<bool>)

  datatype Label =
    | Request | Look(e: nat) | Exchange(e: nat) | Size(e: nat) | Claim(e: nat)
    | Process(e: nat) | Flag(e: nat) | Account(e: nat) | Settle(e: nat)

  function Start(c: Config, executors: nat): State {
    State(0, 0, false, false, seq(executors, _ => Top), seq(c.n, _ => Unclaimed), seq(c.n, _ => 0), [])
  }

  function Min(a: int, b: int): int {
    if a < b then a else b
  }

  function At(s: State, e: nat, pc: Pc): State
    requires e < |s.execs|
  {
    s.(execs := s.execs[e := pc])
  }

  predicate Enabled(s: State, l: Label) {
    match l
    case Request => true
    case Look(e) => e < |s.execs| && s.execs[e] == Top
    case Exchange(e) => e < |s.execs| && s.execs[e] == Cancelling
    case Size(e) => e < |s.execs| && s.execs[e] == Sizing
    case Claim(e) => e < |s.execs| && s.execs[e].Grained?
    case Process(e) => e < |s.execs| && s.execs[e].Chunk? && s.execs[e].i < s.execs[e].stop
    case Flag(e) => e < |s.execs| && s.execs[e].Flagging?
    case Account(e) => e < |s.execs| && (s.execs[e].Flagged? || (s.execs[e].Chunk? && s.execs[e].i == s.execs[e].stop))
    case Settle(e) => e < |s.execs| && s.execs[e] == Settling
  }

  function Next(c: Config, s: State, l: Label): State
    requires Inv(c, s) && Enabled(s, l)
  {
    match l
    case Request => s.(requested := true)
    case Look(e) => At(s, e, if s.requested then Cancelling else Sizing)
    case Size(e) => At(s, e, Grained(ClaimGrain(c.balance, c.n, s.next, c.workers)))
    case Exchange(e) =>
      if s.next >= c.n then At(s, e, Exited).(next := c.n)
      else At(s, e, Flagging(s.next, c.n)).(next := c.n, items := Fill(s.items, s.next, c.n, SkippedBy(e)))
    case Claim(e) =>
      assert PcInv(c, s, e);
      var g := s.execs[e].g;
      if s.next >= c.n then At(s, e, Exited).(next := s.next + g)
      else
        var stop := Min(s.next + g, c.n);
        At(s, e, Chunk(s.next, s.next, stop)).(next := s.next + g, items := Fill(s.items, s.next, stop, Claimed(e)))
    case Process(e) =>
      assert PcInv(c, s, e);
      var Chunk(start, i, stop) := s.execs[e];
      At(s, e, Chunk(start, i + 1, stop)).(items := s.items[i := Processed(e)], runs := s.runs[i := s.runs[i] + 1])
    case Flag(e) => At(s, e, Flagged(s.execs[e].start, s.execs[e].stop)).(skipped := true)
    case Account(e) =>
      assert PcInv(c, s, e);
      var pc := s.execs[e];
      var done := s.done + (pc.stop - pc.start);
      At(s, e, if done == c.n then Settling else Top).(
        done := done, items := Fill(s.items, pc.start, pc.stop, Accounted(pc.Flagged?)))
    case Settle(e) => At(s, e, Top).(settles := s.settles + [s.skipped])
  }

  // ---- the invariant -----------------------------------------------------------------------------

  predicate Owned(x: Item, e: int) {
    (x.Claimed? || x.Processed? || x.SkippedBy?) && x.who == e
  }

  /** The indices an executor has claimed and not accounted for, as its position says. */
  predicate InHand(pc: Pc, k: int) {
    (pc.Chunk? || pc.Flagging? || pc.Flagged?) && pc.start <= k < pc.stop
  }

  /** What has happened to an index in hand. */
  function Fate(pc: Pc, e: nat, k: int): Item {
    if !pc.Chunk? then SkippedBy(e) else if k < pc.i then Processed(e) else Claimed(e)
  }

  /** Executor `e`'s position and the items agree on what it has in hand. */
  predicate Agrees(items: seq<Item>, pc: Pc, e: nat) {
    forall k :: 0 <= k < |items| ==> (Owned(items[k], e) <==> InHand(pc, k)) && (InHand(pc, k) ==> items[k] == Fate(pc, e, k))
  }

  predicate PcInv(c: Config, s: State, e: nat)
    requires e < |s.execs|
  {
    match s.execs[e]
    case Grained(g) => 1 <= g <= c.n
    case Chunk(start, i, stop) => start <= i <= stop <= c.n && start < stop
    case Flagging(start, stop) => start < stop == c.n
    case Flagged(start, stop) => s.skipped && start < stop == c.n
    case Settling => s.done == c.n && s.settles == []
    case _ => true
  }

  predicate ItemInv(s: State, k: int)
    requires 0 <= k < |s.items| == |s.runs|
  {
    && (s.items[k] == Unclaimed <==> s.next <= k)
    && s.runs[k] == (if s.items[k].Processed? || s.items[k] == Accounted(false) then 1 else 0)
    && (s.items[k] == Accounted(true) ==> s.skipped)
    && (!s.items[k].Unclaimed? && !s.items[k].Accounted? ==>
          s.items[k].who < |s.execs| && Owned(s.items[k], s.items[k].who))
  }

  predicate IsAccounted(x: Item) {
    x.Accounted?
  }

  predicate SettleInv(c: Config, s: State)
    requires |s.items| == c.n > 0
  {
    && |s.settles| <= 1
    && (s.settles != [] ==> s.done == c.n && s.settles == [s.skipped])
    && (s.done == c.n && s.settles == [] ==> exists e :: 0 <= e < |s.execs| && s.execs[e] == Settling)
    && (forall d, e :: 0 <= d < |s.execs| && 0 <= e < |s.execs| && s.execs[d] == Settling && s.execs[e] == Settling ==> d == e)
    && (s.skipped ==> s.items[c.n - 1].SkippedBy? || s.items[c.n - 1] == Accounted(true))
  }

  predicate Sized(c: Config, s: State) {
    c.n > 0 && c.workers > 0 && |s.items| == |s.runs| == c.n && s.next >= 0
  }

  predicate Inv(c: Config, s: State) {
    && Sized(c, s)
    && (forall e :: 0 <= e < |s.execs| ==> PcInv(c, s, e) && Agrees(s.items, s.execs[e], e))
    && (forall k :: 0 <= k < c.n ==> ItemInv(s, k))
    && s.done == Count(s.items, IsAccounted)
    && SettleInv(c, s)
  }

  // ---- each step keeps it ------------------------------------------------------------------------

  lemma StartOk(c: Config, executors: nat)
    requires c.n > 0 && c.workers > 0
    ensures Inv(c, Start(c, executors))
  {
    CountBounds(Start(c, executors).items, IsAccounted);
  }

  /** An executor that the step is not about still agrees, as only indices nobody else holds changed
      hands. */
  lemma OtherAgrees(items: seq<Item>, items': seq<Item>, pc: Pc, d: nat, e: nat)
    requires Agrees(items, pc, d) && d != e && |items'| == |items|
    requires forall k :: 0 <= k < |items| && items'[k] != items[k] ==>
      (items[k] == Unclaimed || Owned(items[k], e)) && (items'[k].Accounted? || Owned(items'[k], e))
    ensures Agrees(items', pc, d)
  {
    forall k | 0 <= k < |items|
      ensures (Owned(items'[k], d) <==> InHand(pc, k)) && (InHand(pc, k) ==> items'[k] == Fate(pc, d, k))
    {
      assert Owned(items'[k], d) <==> Owned(items[k], d);
    }
  }

  /** So after a step of `e` that leaves `e` itself agreeing, all agree. */
  lemma AllAgree(c: Config, s: State, s': State, e: nat)
    requires Inv(c, s) && |s'.items| == c.n && e < |s.execs| == |s'.execs|
    requires s'.execs == s.execs[e := s'.execs[e]] && Agrees(s'.items, s'.execs[e], e)
    requires forall k :: 0 <= k < c.n && s'.items[k] != s.items[k] ==>
      (s.items[k] == Unclaimed || Owned(s.items[k], e)) && (s'.items[k].Accounted? || Owned(s'.items[k], e))
    ensures forall d :: 0 <= d < |s.execs| ==> Agrees(s'.items, s'.execs[d], d)
  {
    forall d | 0 <= d < |s.execs| ensures Agrees(s'.items, s'.execs[d], d) {
      if d != e {
        assert Agrees(s.items, s.execs[d], d);
        OtherAgrees(s.items, s'.items, s.execs[d], d, e);
      }
    }
  }

  /** The positions of the executors a step of `e` is not about. */
  lemma OtherPcs(c: Config, s: State, s': State, e: nat)
    requires Inv(c, s) && e < |s.execs| == |s'.execs| && s'.execs == s.execs[e := s'.execs[e]]
    requires PcInv(c, s', e) && (s.skipped ==> s'.skipped)
    requires (s'.done == s.done && s'.settles == s.settles) || forall d :: 0 <= d < |s.execs| && d != e ==> s.execs[d] != Settling
    ensures forall d :: 0 <= d < |s.execs| ==> PcInv(c, s', d)
  {
    forall d | 0 <= d < |s.execs| ensures PcInv(c, s', d) {
      assert PcInv(c, s, d);
    }
  }

  /** Nobody became or ceased to be the settling executor. */
  lemma SettlersSame(s: State, s': State)
    requires |s.execs| == |s'.execs| && forall e :: 0 <= e < |s.execs| ==> (s.execs[e] == Settling <==> s'.execs[e] == Settling)
    ensures (exists e :: 0 <= e < |s.execs| && s.execs[e] == Settling) ==> (exists e :: 0 <= e < |s'.execs| && s'.execs[e] == Settling)
  {
    if e :| 0 <= e < |s.execs| && s.execs[e] == Settling {
      assert s'.execs[e] == Settling;
    }
  }

  /** A position between the claims, with nothing in hand and nothing to settle. */
  predicate Idle(pc: Pc) {
    pc == Top || pc == Cancelling || pc == Sizing || pc.Grained? || pc == Exited
  }

  /** Steps that claim, process or account for nothing; past the end the counter may move on. */
  lemma MoveKeeps(c: Config, s: State, s': State, e: nat)
    requires Inv(c, s) && e < |s.execs| == |s'.execs| && Idle(s.execs[e]) && Idle(s'.execs[e]) && PcInv(c, s', e)
    requires s' == At(s, e, s'.execs[e]).(next := s'.next) && (s'.next == s.next || (s.next >= c.n && s'.next >= c.n))
    ensures Inv(c, s')
  {
    assert Agrees(s.items, s.execs[e], e);
    assert Agrees(s'.items, s'.execs[e], e);
    AllAgree(c, s, s', e);
    OtherPcs(c, s, s', e);
    forall k | 0 <= k < c.n ensures ItemInv(s', k) {
      assert ItemInv(s, k);
    }
    SettlersSame(s, s');
  }

  lemma QuietStep(c: Config, s: State, l: Label)
    requires Inv(c, s) && Enabled(s, l)
    requires l.Look? || l.Size? || ((l.Exchange? || l.Claim?) && s.next >= c.n)
    ensures Inv(c, Next(c, s, l))
  {
    assert PcInv(c, s, l.e);
    if l.Size? {
      GrainBounds(c.balance, c.n, s.next, c.workers);
    }
    MoveKeeps(c, s, Next(c, s, l), l.e);
  }

  lemma RequestStep(c: Config, s: State)
    requires Inv(c, s)
    ensures Inv(c, Next(c, s, Request))
  {
    var s' := Next(c, s, Request);
    forall k | 0 <= k < c.n ensures ItemInv(s', k) {
      assert ItemInv(s, k);
    }
    forall d | 0 <= d < |s'.execs| ensures PcInv(c, s', d) && Agrees(s'.items, s'.execs[d], d) {
      assert PcInv(c, s, d) && Agrees(s.items, s.execs[d], d);
    }
    SettlersSame(s, s');
  }

  /** A claim seen by the claimant: from nothing in hand to exactly the claimed range. */
  lemma ClaimantAgrees(items: seq<Item>, e: nat, start: nat, stop: nat, pc: Pc, x: Item)
    requires start < stop <= |items| && forall k :: 0 <= k < |items| ==> !Owned(items[k], e)
    requires (pc == Chunk(start, start, stop) && x == Claimed(e)) || (pc == Flagging(start, stop) && x == SkippedBy(e))
    ensures Agrees(Fill(items, start, stop, x), pc, e)
  {
  }

  /** The first unclaimed indices, and that not everything is accounted for yet. */
  lemma UnclaimedTail(c: Config, s: State)
    requires Inv(c, s) && s.next < c.n
    ensures forall k :: s.next <= k < c.n ==> s.items[k] == Unclaimed
    ensures s.done < c.n
  {
    forall k | s.next <= k < c.n ensures s.items[k] == Unclaimed {
      assert ItemInv(s, k);
    }
    CountBounds(s.items, IsAccounted);
    assert !IsAccounted(s.items[s.next]);
  }

  /** A claim of `s.next .. stop` by `e`, to process or to skip. */
  lemma ClaimKeeps(c: Config, s: State, s': State, e: nat, stop: nat, x: Item)
    requires Inv(c, s) && e < |s.execs| == |s'.execs| && Idle(s.execs[e]) && s.next < stop <= c.n && PcInv(c, s', e)
    requires (s'.execs[e] == Chunk(s.next, s.next, stop) && x == Claimed(e)) || (s'.execs[e] == Flagging(s.next, stop) && x == SkippedBy(e))
    requires s' == At(s, e, s'.execs[e]).(next := s'.next, items := Fill(s.items, s.next, stop, x))
    requires s'.next == stop || (stop == c.n && s'.next >= c.n)
    ensures Inv(c, s')
  {
    assert Agrees(s.items, s.execs[e], e);
    UnclaimedTail(c, s);
    ClaimantAgrees(s.items, e, s.next, stop, s'.execs[e], x);
    AllAgree(c, s, s', e);
    OtherPcs(c, s, s', e);
    CountFill(s.items, IsAccounted, s.next, stop, x);
    forall k | 0 <= k < c.n ensures ItemInv(s', k) {
      assert ItemInv(s, k);
    }
    SettlersSame(s, s');
  }

  lemma ClaimStep(c: Config, s: State, l: Label)
    requires Inv(c, s) && Enabled(s, l) && (l.Exchange? || l.Claim?) && s.next < c.n
    ensures Inv(c, Next(c, s, l))
  {
    var e := l.e;
    assert PcInv(c, s, e);
    var stop := if l.Exchange? then c.n else Min(s.next + s.execs[e].g, c.n);
    ClaimKeeps(c, s, Next(c, s, l), e, stop, if l.Exchange? then SkippedBy(e) else Claimed(e));
  }

  /** The skip flag is raised before the skipped indices are accounted for. */
  lemma FlagStep(c: Config, s: State, e: nat)
    requires Inv(c, s) && Enabled(s, Flag(e))
    ensures Inv(c, Next(c, s, Flag(e)))
  {
    var s' := Next(c, s, Flag(e));
    assert PcInv(c, s, e) && Agrees(s.items, s.execs[e], e);
    assert InHand(s.execs[e], c.n - 1);
    assert s.items[c.n - 1] == SkippedBy(e) && !IsAccounted(s.items[c.n - 1]);
    CountBounds(s.items, IsAccounted);
    AllAgree(c, s, s', e);
    OtherPcs(c, s, s', e);
    forall k | 0 <= k < c.n ensures ItemInv(s', k) {
      assert ItemInv(s, k);
    }
    SettlersSame(s, s');
  }

  /** Processing one index of the chunk, seen by its executor. */
  lemma ProcessorAgrees(items: seq<Item>, pc: Pc, e: nat)
    requires Agrees(items, pc, e) && pc.Chunk? && pc.start <= pc.i < pc.stop <= |items|
    ensures items[pc.i] == Claimed(e) && Agrees(items[pc.i := Processed(e)], pc.(i := pc.i + 1), e)
  {
    assert InHand(pc, pc.i);
    var items', pc' := items[pc.i := Processed(e)], pc.(i := pc.i + 1);
    forall k | 0 <= k < |items|
      ensures (Owned(items'[k], e) <==> InHand(pc', k)) && (InHand(pc', k) ==> items'[k] == Fate(pc', e, k))
    {
      assert InHand(pc, k) <==> InHand(pc', k);
    }
  }

  lemma ProcessStep(c: Config, s: State, e: nat)
    requires Inv(c, s) && Enabled(s, Process(e))
    ensures Inv(c, Next(c, s, Process(e)))
  {
    var s' := Next(c, s, Process(e));
    assert PcInv(c, s, e) && Agrees(s.items, s.execs[e], e);
    var i := s.execs[e].i;
    ProcessorAgrees(s.items, s.execs[e], e);
    AllAgree(c, s, s', e);
    OtherPcs(c, s, s', e);
    CountUpdate(s.items, IsAccounted, i, Processed(e));
    forall k | 0 <= k < c.n ensures ItemInv(s', k) {
      ProcessItems(c, s, e, k);
    }
    SettlersSame(s, s');
  }

  lemma ProcessItems(c: Config, s: State, e: nat, k: nat)
    requires Inv(c, s) && Enabled(s, Process(e)) && k < c.n
    ensures ItemInv(Next(c, s, Process(e)), k)
  {
    assert ItemInv(s, k);
    assert PcInv(c, s, e) && Agrees(s.items, s.execs[e], e);
  }

  /** Accounting for everything in hand, seen by its executor. */
  lemma AccountantAgrees(items: seq<Item>, pc: Pc, e: nat, pc': Pc, x: Item)
    requires Agrees(items, pc, e) && (pc.Chunk? || pc.Flagged?) && pc.start < pc.stop <= |items| && x.Accounted?
    requires forall k :: !InHand(pc', k)
    ensures Agrees(Fill(items, pc.start, pc.stop, x), pc', e)
    ensures forall k :: pc.start <= k < pc.stop ==> Owned(items[k], e)
  {
    forall k | 0 <= k < |items| ensures !Owned(Fill(items, pc.start, pc.stop, x)[k], e) {
      assert Owned(items[k], e) <==> InHand(pc, k);
    }
    forall k | pc.start <= k < pc.stop ensures Owned(items[k], e) {
      assert InHand(pc, k);
    }
  }

  /** Before an accounting step nobody is settling. */
  lemma NobodySettles(c: Config, s: State, e: nat)
    requires Inv(c, s) && Enabled(s, Account(e))
    ensures s.done < c.n && forall d :: 0 <= d < |s.execs| ==> s.execs[d] != Settling
  {
    assert PcInv(c, s, e) && Agrees(s.items, s.execs[e], e);
    assert InHand(s.execs[e], s.execs[e].start);
    assert !IsAccounted(s.items[s.execs[e].start]);
    CountBounds(s.items, IsAccounted);
    forall d | 0 <= d < |s.execs| ensures s.execs[d] != Settling {
      assert PcInv(c, s, d);
    }
  }

  /** The tally of what an executor has in hand. */
  lemma HandTallies(items: seq<Item>, pc: Pc, e: nat, x: Item)
    requires Agrees(items, pc, e) && (pc.Chunk? || pc.Flagged?) && pc.start < pc.stop <= |items| && x.Accounted?
    ensures Count(Fill(items, pc.start, pc.stop, x), IsAccounted) == Count(items, IsAccounted) + (pc.stop - pc.start) <= |items|
  {
    forall k | pc.start <= k < pc.stop ensures !IsAccounted(items[k]) {
      assert InHand(pc, k);
    }
    CountFill(items, IsAccounted, pc.start, pc.stop, x);
    CountBounds(Fill(items, pc.start, pc.stop, x), IsAccounted);
  }

  lemma AccountItems(c: Config, s: State, e: nat, k: nat)
    requires Inv(c, s) && Enabled(s, Account(e)) && k < c.n
    ensures ItemInv(Next(c, s, Account(e)), k)
  {
    assert ItemInv(s, k);
    assert PcInv(c, s, e) && Agrees(s.items, s.execs[e], e);
    assert Owned(s.items[k], e) <==> InHand(s.execs[e], k);
  }

  lemma AccountStep(c: Config, s: State, e: nat)
    requires Inv(c, s) && Enabled(s, Account(e))
    ensures Inv(c, Next(c, s, Account(e)))
  {
    var s' := Next(c, s, Account(e));
    NobodySettles(c, s, e);
    assert PcInv(c, s, e) && Agrees(s.items, s.execs[e], e);
    HandTallies(s.items, s.execs[e], e, Accounted(s.execs[e].Flagged?));
    AccountantAgrees(s.items, s.execs[e], e, s'.execs[e], Accounted(s.execs[e].Flagged?));
    AllAgree(c, s, s', e);
    OtherPcs(c, s, s', e);
    forall k | 0 <= k < c.n ensures ItemInv(s', k) {
      AccountItems(c, s, e, k);
    }
    assert s'.done == c.n ==> s'.execs[e] == Settling;
  }

  lemma SettleStep(c: Config, s: State, e: nat)
    requires Inv(c, s) && Enabled(s, Settle(e))
    ensures Inv(c, Next(c, s, Settle(e)))
  {
    var s' := Next(c, s, Settle(e));
    assert PcInv(c, s, e);
    forall k | 0 <= k < c.n ensures ItemInv(s', k) {
      assert ItemInv(s, k);
    }
    forall d | 0 <= d < |s'.execs| ensures PcInv(c, s', d) && Agrees(s'.items, s'.execs[d], d) {
      assert PcInv(c, s, d) && Agrees(s.items, s.execs[d], d);
    }
  }

  lemma StepKeepsInv(c: Config, s: State, l: Label)
    requires Inv(c, s) && Enabled(s, l)
    ensures Inv(c, Next(c, s, l))
  {
    match l
    case Request => RequestStep(c, s);
    case Process(e) => ProcessStep(c, s, e);
    case Account(e) => AccountStep(c, s, e);
    case Settle(e) => SettleStep(c, s, e);
    case Flag(e) => FlagStep(c, s, e);
    case _ => if (l.Exchange? || l.Claim?) && s.next < c.n { ClaimStep(c, s, l); } else { QuietStep(c, s, l); }
  }

  // ---- what every run guarantees --------------------------------------------------------------------

  predicate Step(c: Config, s: State, l: Label, s': State) {
    Inv(c, s) ==> Enabled(s, l) && s' == Next(c, s, l)
  }

  predicate IsRun(c: Config, executors: nat, states: seq<State>, labels: seq<Label>) {
    && c.n > 0 && c.workers > 0 && |states| == |labels| + 1 && states[0] == Start(c, executors)
    && forall k :: 0 <= k < |labels| ==> Step(c, states[k], labels[k], states[k + 1])
  }

  lemma {:induction false} RunKeepsInv(c: Config, executors: nat, states: seq<State>, labels: seq<Label>, k: nat)
    requires IsRun(c, executors, states, labels) && k < |states|
    ensures Inv(c, states[k]) && |states[k].execs| == executors
    decreases k
  {
    if k == 0 {
      StartOk(c, executors);
    } else {
      RunKeepsInv(c, executors, states, labels, k - 1);
      assert Step(c, states[k - 1], labels[k - 1], states[k]);
      StepKeepsInv(c, states[k - 1], labels[k - 1]);
    }
  }

  /** No index is ever processed twice and the task settles at most once.  When it has settled, every
      index was either processed exactly once or skipped, and it settled as cancelled exactly when some
      index was skipped. */
  lemma EveryIndexOnce(c: Config, executors: nat, states: seq<State>, labels: seq<Label>, t: nat)
    requires IsRun(c, executors, states, labels) && t < |states|
    ensures var s := states[t];
      && |s.settles| <= 1 && |s.runs| == |s.items| == c.n
      && (forall k :: 0 <= k < c.n ==> s.runs[k] <= 1)
      && (s.settles != [] ==>
            && (forall k :: 0 <= k < c.n ==> s.items[k] == Accounted(s.runs[k] == 0))
            && (s.settles[0] <==> exists k :: 0 <= k < c.n && s.runs[k] == 0))
  {
    RunKeepsInv(c, executors, states, labels, t);
    var s := states[t];
    CountBounds(s.items, IsAccounted);
    forall k | 0 <= k < c.n
      ensures s.runs[k] <= 1 && (s.items[k].Accounted? ==> s.items[k] == Accounted(s.runs[k] == 0))
      ensures s.items[k] == Accounted(true) ==> s.skipped
    {
      assert ItemInv(s, k);
    }
    if s.settles != [] && s.skipped {
      assert s.items[c.n - 1] == Accounted(true);
      assert s.runs[c.n - 1] == 0;
    }
  }

  /** An executor sizes its claim by the counter as it is then, and claims that much at the counter's
      then value, clamped to the loop. */
  lemma ClaimsWhatItSized(c: Config, s: State, e: nat)
    requires Inv(c, s) && e < |s.execs|
    ensures s.execs[e] == Sizing ==>
      Next(c, s, Size(e)).execs[e].Grained? && GrainFits(c.balance, c.n, s.next, c.workers, Next(c, s, Size(e)).execs[e].g)
    ensures s.execs[e].Grained? && s.next < c.n ==> exists stop: nat ::
      Next(c, s, Claim(e)).execs[e] == Chunk(s.next, s.next, stop)
      && (stop == s.next + s.execs[e].g <= c.n || stop == c.n <= s.next + s.execs[e].g)
  {
    assert PcInv(c, s, e);
    GrainIsExact(c.balance, c.n, s.next, c.workers);
    if s.execs[e].Grained? && s.next < c.n {
      var stop := Next(c, s, Claim(e)).execs[e].stop;
      assert Next(c, s, Claim(e)).execs[e] == Chunk(s.next, s.next, stop);
    }
  }

  // ---- cancellation ---------------------------------------------------------------------------------

  /** On the way to skipping what is left. */
  predicate Skips(pc: Pc) {
    pc == Cancelling || pc.Flagging? || pc.Flagged?
  }

  /** On the way to processing a chunk, or processing it. */
  predicate Works(pc: Pc) {
    pc == Sizing || pc.Grained? || pc.Chunk?
  }

  predicate NobodySkips(s: State) {
    !s.requested && !s.skipped && forall e :: 0 <= e < |s.execs| ==> !Skips(s.execs[e])
  }

  /** Nothing is skipped unless it was asked for: without a request the task settles as completed, with
      every index processed. */
  lemma {:induction false} WithoutRequestAllIsProcessed(c: Config, executors: nat, states: seq<State>, labels: seq<Label>, t: nat)
    requires IsRun(c, executors, states, labels) && t < |states| && Request !in labels[..t]
    ensures NobodySkips(states[t]) && |states[t].runs| == c.n
    ensures states[t].settles != [] ==> states[t].settles == [false] && forall k :: 0 <= k < c.n ==> states[t].runs[k] == 1
    decreases t
  {
    EveryIndexOnce(c, executors, states, labels, t);
    RunKeepsInv(c, executors, states, labels, t);
    if t > 0 {
      assert labels[..t] == labels[..t - 1] + [labels[t - 1]];
      WithoutRequestAllIsProcessed(c, executors, states, labels, t - 1);
      RunKeepsInv(c, executors, states, labels, t - 1);
      assert Step(c, states[t - 1], labels[t - 1], states[t]);
      NobodyStartsSkipping(c, states[t - 1], labels[t - 1]);
    }
  }

  lemma NobodyStartsSkipping(c: Config, s: State, l: Label)
    requires Inv(c, s) && Enabled(s, l) && NobodySkips(s) && l != Request
    ensures NobodySkips(Next(c, s, l))
  {
    assert PcInv(c, s, l.e) && !Skips(s.execs[l.e]);
  }

  /** A request is heeded at the next look: nobody decides to work any more, and only an executor that had
      decided before runs a body. */
  lemma RequestIsHeeded(c: Config, s: State, l: Label)
    requires Inv(c, s) && Enabled(s, l) && s.requested
    ensures var s' := Next(c, s, l);
      && s'.requested && |s'.execs| == |s.execs|
      && (forall e :: 0 <= e < |s.execs| && Works(s'.execs[e]) ==> Works(s.execs[e]))
      && (s'.runs == s.runs || (l.Process? && Works(s.execs[l.e])))
  {
    assert !l.Request? ==> PcInv(c, s, l.e);
  }

  /** After a request the executors at work only become fewer, and once there are none no index is
      processed any more. */
  lemma {:induction false} RequestEndsTheWork(c: Config, executors: nat, states: seq<State>, labels: seq<Label>, u: nat, t: nat)
    requires IsRun(c, executors, states, labels) && u <= t < |states| && Request in labels[..u]
    ensures states[t].requested && |states[t].execs| == |states[u].execs| == executors
    ensures forall e :: 0 <= e < executors && Works(states[t].execs[e]) ==> Works(states[u].execs[e])
    ensures (forall e :: 0 <= e < executors ==> !Works(states[u].execs[e])) ==> states[t].runs == states[u].runs
    decreases t
  {
    RunKeepsInv(c, executors, states, labels, t);
    RunKeepsInv(c, executors, states, labels, t - 1);
    assert Step(c, states[t - 1], labels[t - 1], states[t]);
    if u < t {
      RequestEndsTheWork(c, executors, states, labels, u, t - 1);
      RequestIsHeeded(c, states[t - 1], labels[t - 1]);
    } else if labels[t - 1] != Request {
      assert labels[..t] == labels[..t - 1] + [labels[t - 1]];
      RequestEndsTheWork(c, executors, states, labels, t - 1, t - 1);
      RequestIsHeeded(c, states[t - 1], labels[t - 1]);
    }
  }

  /** A task whose cancellation was requested before anybody looked processes nothing and settles as
      cancelled. */
  lemma RequestedFirstSkipsAll(c: Config, executors: nat, states: seq<State>, labels: seq<Label>, t: nat)
    requires IsRun(c, executors, states, labels) && 0 < t < |states| && labels[0] == Request
    ensures |states[t].runs| == c.n && forall k :: 0 <= k < c.n ==> states[t].runs[k] == 0
    ensures states[t].settles != [] ==> states[t].settles == [true]
  {
    RunKeepsInv(c, executors, states, labels, 0);
    assert Step(c, states[0], labels[0], states[1]);
    assert labels[..1] == [Request];
    RequestEndsTheWork(c, executors, states, labels, 1, t);
    EveryIndexOnce(c, executors, states, labels, t);
    assert states[t].runs == states[0].runs;
    assert states[t].runs[0] == 0;
  }

  /** Once every executor has left the loop, the task has settled. */
  lemma SettledWhenAllLeft(c: Config, executors: nat, states: seq<State>, labels: seq<Label>, t: nat)
    requires IsRun(c, executors, states, labels) && t < |states| && executors > 0
    requires forall e :: 0 <= e < |states[t].execs| ==> states[t].execs[e] == Exited
    ensures |states[t].settles| == 1
  {
    RunKeepsInv(c, executors, states, labels, t);
    var s := states[t];
    forall x: nat ensures ClaimGrain(c.balance, c.n, x, c.workers) <= c.n {
      GrainBounds(c.balance, c.n, x, c.workers);
    }
    CounterIsBounded(c, executors, states, labels, t, c.n);
    assert CountExited(s.execs) > 0;
    forall e, k | 0 <= e < executors && 0 <= k < c.n ensures !Owned(s.items[k], e) {
      assert Agrees(s.items, s.execs[e], e);
    }
    forall k | 0 <= k < c.n ensures s.items[k].Accounted? {
      assert ItemInv(s, k);
    }
    CountBounds(s.items, IsAccounted);
  }

  predicate HasExited(pc: Pc) {
    pc == Exited
  }

  function CountExited(execs: seq<Pc>): nat {
    Count(execs, HasExited)
  }

  /** How far past the end the counter can be: one claim crossed it, and every executor that left added
      at most one more. */
  predicate CounterBound(c: Config, s: State, grain: nat) {
    && s.next <= c.n + (1 + CountExited(s.execs)) * grain
    && (CountExited(s.execs) > 0 ==> s.next >= c.n)
    && forall e: nat :: e < |s.execs| && s.execs[e].Grained? ==> s.execs[e].g <= grain
  }

  /** What a step does to the counter and to the number of executors that left. */
  lemma CounterEffect(c: Config, s: State, l: Label)
    requires Inv(c, s) && Enabled(s, l)
    ensures var s' := Next(c, s, l); var x, x' := CountExited(s.execs), CountExited(s'.execs);
      && s'.next >= 0 && |s'.execs| == |s.execs|
      && if l.Claim? then s'.next == s.next + s.execs[l.e].g && x' == (if s.next >= c.n then x + 1 else x)
         else if l.Exchange? then s'.next == c.n && x <= x'
         else s'.next == s.next && x' == x
    ensures forall e :: 0 <= e < |s.execs| && Next(c, s, l).execs[e].Grained? && !(l.Size? && l.e == e) ==>
      s.execs[e] == Next(c, s, l).execs[e]
  {
    if !l.Request? {
      assert PcInv(c, s, l.e);
      CountUpdate(s.execs, HasExited, l.e, Next(c, s, l).execs[l.e]);
    }
  }

  /** One more claim: below the end it stays within a grain of it, past the end it is paid for by the
      executor that leaves. */
  lemma ClaimPays(n: nat, next: int, x: nat, g: int, grain: nat)
    requires 0 <= g <= grain && next <= n + (1 + x) * grain
    ensures next < n ==> next + g <= n + (1 + x) * grain
    ensures next + g <= n + (2 + x) * grain
  {
    assert (2 + x) * grain == (1 + x) * grain + grain;
    Monotone(1, 1 + x, grain);
  }

  lemma StepKeepsCounterBound(c: Config, s: State, l: Label, grain: nat)
    requires Inv(c, s) && Enabled(s, l) && CounterBound(c, s, grain)
    requires forall x: nat :: ClaimGrain(c.balance, c.n, x, c.workers) <= grain
    ensures CounterBound(c, Next(c, s, l), grain)
  {
    CounterEffect(c, s, l);
    var s' := Next(c, s, l);
    var x, x' := CountExited(s.execs), CountExited(s'.execs);
    assert s'.next <= c.n + (1 + x') * grain && (x' > 0 ==> s'.next >= c.n) by {
      if l.Claim? {
        assert PcInv(c, s, l.e);
        ClaimPays(c.n, s.next, x, s.execs[l.e].g, grain);
      } else if l.Exchange? {
        Monotone(0, 1 + x', grain);
      }
    }
    if l.Size? {
      assert s'.execs[l.e].g <= grain;
    }
  }

  /** The claim counter never exceeds the loop's length by more than one grain per executor and one
      more, whatever the interleaving. */
  lemma {:induction false} CounterIsBounded(c: Config, executors: nat, states: seq<State>, labels: seq<Label>, t: nat, grain: nat)
    requires IsRun(c, executors, states, labels) && t < |states|
    requires forall x: nat :: ClaimGrain(c.balance, c.n, x, c.workers) <= grain
    ensures CounterBound(c, states[t], grain)
    ensures 0 <= states[t].next <= c.n + (executors + 1) * grain
    decreases t
  {
    RunKeepsInv(c, executors, states, labels, t);
    if t == 0 {
      CountBounds(states[0].execs, HasExited);
      assert (1 + 0) * grain == grain;
    } else {
      RunKeepsInv(c, executors, states, labels, t - 1);
      CounterIsBounded(c, executors, states, labels, t - 1, grain);
      assert Step(c, states[t - 1], labels[t - 1], states[t]);
      StepKeepsCounterBound(c, states[t - 1], labels[t - 1], grain);
    }
    CountBounds(states[t].execs, HasExited);
    Monotone(1 + CountExited(states[t].execs), executors + 1, grain);
  }

  // ---- the loop ends ---------------------------------------------------------------------------------

  /** What an executor still has to do before it leaves or claims again. */
  function PcWork(pc: Pc): nat {
    match pc
    case Top => 4
    case Cancelling => 3
    case Sizing => 3
    case Grained(_) => 2
    case Chunk(_, i, stop) => 6 + (if stop >= i then stop - i else 0)
    case Flagging(_, _) => 7
    case Flagged(_, _) => 6
    case Settling => 5
    case Exited => 0
  }

  function LeftToClaim(c: Config, s: State): nat {
    if s.next < c.n then c.n - s.next else 0
  }

  /** An unclaimed index is worth more than all that claiming it can bring. */
  function Work(c: Config, s: State): nat {
    10 * LeftToClaim(c, s) + Sum(s.execs, PcWork)
  }

  /** What the acting executor and the counter lose. */
  ghost predicate Shrinks(c: Config, s: State, s': State, e: nat) {
    && e < |s.execs| == |s'.execs| && s'.execs == s.execs[e := s'.execs[e]]
    && 10 * LeftToClaim(c, s') + PcWork(s'.execs[e]) < 10 * LeftToClaim(c, s) + PcWork(s.execs[e])
  }

  lemma ClaimShrinks(c: Config, s: State, l: Label)
    requires Inv(c, s) && Enabled(s, l) && (l.Exchange? || l.Claim?)
    ensures Shrinks(c, s, Next(c, s, l), l.e)
  {
    assert PcInv(c, s, l.e);
    if l.Exchange? {
      assert Next(c, s, l).next == c.n;
    }
  }

  lemma OtherShrinks(c: Config, s: State, l: Label)
    requires Inv(c, s) && Enabled(s, l) && !(l.Exchange? || l.Claim? || l.Request?)
    ensures Shrinks(c, s, Next(c, s, l), l.e)
  {
    assert PcInv(c, s, l.e);
    assert Next(c, s, l).next == s.next;
  }

  /** Every step of an executor uses up work; a cancellation request costs nothing. */
  lemma StepShrinksWork(c: Config, s: State, l: Label)
    requires Inv(c, s) && Enabled(s, l)
    ensures if l.Request? then Work(c, Next(c, s, l)) == Work(c, s) else Work(c, Next(c, s, l)) < Work(c, s)
  {
    if !l.Request? {
      if l.Exchange? || l.Claim? {
        ClaimShrinks(c, s, l);
      } else {
        OtherShrinks(c, s, l);
      }
      ShrinksWork(c, s, Next(c, s, l), l.e);
    }
  }

  lemma ShrinksWork(c: Config, s: State, s': State, e: nat)
    requires Shrinks(c, s, s', e)
    ensures Work(c, s') < Work(c, s)
  {
    SumUpdate(s.execs, PcWork, e, s'.execs[e]);
  }

  /** The steps of executors among the first `k`. */
  function Moves(labels: seq<Label>, k: nat): nat
    requires k <= |labels|
  {
    if k == 0 then 0 else Moves(labels, k - 1) + (if labels[k - 1].Request? then 0 else 1)
  }

  lemma {:induction false} MovesAreBounded(c: Config, executors: nat, states: seq<State>, labels: seq<Label>, k: nat)
    requires IsRun(c, executors, states, labels) && k <= |labels|
    ensures Inv(c, states[k]) && Work(c, states[k]) + Moves(labels, k) <= Work(c, states[0])
    decreases k
  {
    RunKeepsInv(c, executors, states, labels, k);
    if k > 0 {
      MovesAreBounded(c, executors, states, labels, k - 1);
      assert Step(c, states[k - 1], labels[k - 1], states[k]);
      StepShrinksWork(c, states[k - 1], labels[k - 1]);
    }
  }

  /** The next step of an executor that has not left. */
  function NextMove(e: nat, pc: Pc): Label {
    match pc
    case Top => Look(e)
    case Cancelling => Exchange(e)
    case Sizing => Size(e)
    case Grained(_) => Claim(e)
    case Chunk(_, i, stop) => if i < stop then Process(e) else Account(e)
    case Flagging(_, _) => Flag(e)
    case Flagged(_, _) => Account(e)
    case Settling => Settle(e)
    case Exited => Request
  }

  /** Every run of the loop ends: its executors take boundedly many steps, whatever the interleaving, and
      when none of them can take another the task has settled. */
  lemma EveryLoopSettles(c: Config, executors: nat, states: seq<State>, labels: seq<Label>)
    requires IsRun(c, executors, states, labels) && executors > 0
    ensures Moves(labels, |labels|) <= Work(c, states[0])
    ensures (forall l :: Enabled(states[|labels|], l) ==> l.Request?) ==> |states[|labels|].settles| == 1
  {
    MovesAreBounded(c, executors, states, labels, |labels|);
    RunKeepsInv(c, executors, states, labels, |labels|);
    var s := states[|labels|];
    if forall l :: Enabled(s, l) ==> l.Request? {
      forall e | 0 <= e < |s.execs| ensures s.execs[e] == Exited {
        assert PcInv(c, s, e);
        if s.execs[e] != Exited {
          assert Enabled(s, NextMove(e, s.execs[e]));
        }
      }
      SettledWhenAllLeft(c, executors, states, labels, |labels|);
    }
  }
}
