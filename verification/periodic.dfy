/** The periodic clock (`Periodic`, src/timer.cpp): each completion reports how many grid points have
    passed and moves the deadline past now, always on the grid laid down at construction. */
module PeriodicClock {
  import opened Arithmetic

  /** The grid points that are due at `now`; the source's division rounds toward zero. */
  function Due(deadline: int, period: int, now: int): int
    requires period > 0
  {
    1 + TruncDiv(now - deadline, period)
  }

  function NextDeadline(deadline: int, period: int, now: int): int
    requires period > 0
  {
    deadline + period * Due(deadline, period, now)
  }

  class Periodic {
    const period: int
    var nextDeadline: int
    /** When the grid was laid down, and the sum of all counts reported on it. */
    ghost var start: int
    ghost var total: int

    ghost predicate Valid()
      reads this
    {
      period > 0 && nextDeadline == start + period * (1 + total)
    }

    constructor (period: int, now: int)
      requires period > 0
      ensures Valid() && this.period == period && start == now && total == 0
    {
      this.period := period;
      nextDeadline := now + period;
      start, total := now, 0;
    }

    /** The constructor's check: a period that is not positive is fatal (null). */
    static method Create(period: int, now: int) returns (p: Periodic?)
      ensures p != null <==> period > 0
      ensures p != null ==> fresh(p) && p.Valid() && p.period == period && p.start == now && p.total == 0
    {
      if period <= 0 {
        return null;
      }
      p := new Periodic(period, now);
    }

    /** One completion, whenever it comes.  The deadline is on the grid and ahead of now; it is the first
        such grid point, and the counts sum to the whole periods since the start, exactly when the
        completion was not early or early by whole periods. */
    method Advance(now: int, cancelled: bool) returns (due: int)
      requires Valid()
      modifies `nextDeadline, `total
      ensures Valid() && total == old(total) + due
      ensures cancelled ==> due == 0 && nextDeadline == old(nextDeadline)
      ensures !cancelled ==> now < nextDeadline
      ensures !cancelled ==> (nextDeadline <= now + period <==> InStep(old(nextDeadline), period, now))
      ensures !cancelled ==> (total == (now - start) / period <==> InStep(old(nextDeadline), period, now))
      ensures !cancelled && now >= old(nextDeadline) ==> due >= 1
    {
      if cancelled {
        return 0;
      }
      due := Due(nextDeadline, period, now);
      TickLands(start, period, total, now);
      nextDeadline := nextDeadline + period * due;
      total := total + due;
    }

    /** Lays the grid down afresh. */
    method Reset(now: int)
      requires Valid()
      modifies `nextDeadline, `start, `total
      ensures Valid() && start == now && total == 0
    {
      nextDeadline := now + period;
      start, total := now, 0;
    }
  }

  /** Not early, or early by whole periods. */
  predicate InStep(deadline: int, period: int, now: int)
    requires period > 0
  {
    now >= deadline || (deadline - now) % period == 0
  }

  /** How far ahead of now a tick puts the deadline: what is left to the next grid point, a whole period
      more if the tick was early by part of one. */
  lemma Landing(deadline: int, period: int, now: int)
    requires period > 0
    ensures var d := NextDeadline(deadline, period, now);
      && now < d && (d <= now + period <==> InStep(deadline, period, now))
      && (now >= deadline ==> Due(deadline, period, now) >= 1)
  {
    if now >= deadline {
      var q := (now - deadline) / period;
      QuotientIsNatural(now - deadline, period);
      DivBrackets(now - deadline, period);
      Distribute(period, 1, q);
      assert period * q == q * period;
    } else {
      var x := deadline - now;
      var q, r := x / period, x % period;
      assert x == q * period + r;
      Distribute(period, 1, -q);
      assert period * (-q) == -(q * period);
      assert NextDeadline(deadline, period, now) == now + period + r;
    }
  }

  /** One tick, whenever it comes, stays on the grid; deadline and sum are exact together. */
  lemma TickLands(start: int, period: int, total: int, now: int)
    requires period > 0
    ensures var deadline := start + period * (1 + total); var due := Due(deadline, period, now); var d := deadline + period * due;
      && d == start + period * (1 + (total + due))
      && now < d && (now >= deadline ==> due >= 1)
      && (d <= now + period <==> InStep(deadline, period, now))
      && (total + due == (now - start) / period <==> InStep(deadline, period, now))
  {
    var deadline := start + period * (1 + total);
    var due := Due(deadline, period, now);
    var sum := total + due;
    Landing(deadline, period, now);
    Distribute(period, 1 + total, due);
    assert (1 + total) + due == 1 + sum;
    Distribute(period, 1, sum);
    assert period * sum == sum * period;
    DivIs(now - start, period, sum);
  }

  /** The deadline after the first `k` completions, at `times`. */
  function DeadlineAfter(start: int, period: int, times: seq<int>, k: nat): int
    requires period > 0 && k <= |times|
  {
    if k == 0 then start + period else NextDeadline(DeadlineAfter(start, period, times, k - 1), period, times[k - 1])
  }

  /** The sum of the first `k` counts. */
  function Counted(start: int, period: int, times: seq<int>, k: nat): int
    requires period > 0 && k <= |times|
  {
    if k == 0 then 0
    else Counted(start, period, times, k - 1) + Due(DeadlineAfter(start, period, times, k - 1), period, times[k - 1])
  }

  /** Each completion came no earlier than the deadline it waited for. */
  predicate OnTime(start: int, period: int, times: seq<int>)
    requires period > 0
  {
    forall k :: 0 <= k < |times| ==> times[k] >= DeadlineAfter(start, period, times, k)
  }

  /** Over any run of completions no grid point is lost or counted twice: the counts add up to exactly
      the whole periods since the start, and the deadline is the first grid point after now. */
  lemma {:induction false} CountsAddUp(start: int, period: int, times: seq<int>, k: nat)
    requires period > 0 && k <= |times| && OnTime(start, period, times)
    ensures var sum := Counted(start, period, times, k);
      && sum >= 0 && DeadlineAfter(start, period, times, k) == start + period * (1 + sum)
      && (k > 0 ==>
            && sum == (times[k - 1] - start) / period
            && times[k - 1] < DeadlineAfter(start, period, times, k) <= times[k - 1] + period)
    decreases k
  {
    if k > 0 {
      CountsAddUp(start, period, times, k - 1);
      TickLands(start, period, Counted(start, period, times, k - 1), times[k - 1]);
    }
  }

  /** A completion before its deadline breaks both halves of the promise together, except when it is early
      by whole periods: the deadline is then more than a period ahead and the sum too large. */
  lemma EarlyTickOvershoots(start: int, period: int, times: seq<int>, k: nat)
    requires period > 0 && 0 < k <= |times| && OnTime(start, period, times[..k - 1])
    ensures var before := DeadlineAfter(start, period, times, k - 1); var now := times[k - 1];
      && (DeadlineAfter(start, period, times, k) <= now + period <==> InStep(before, period, now))
      && (Counted(start, period, times, k) == (now - start) / period <==> InStep(before, period, now))
  {
    SamePrefix(start, period, times, k - 1, k - 1);
    CountsAddUp(start, period, times[..k - 1], k - 1);
    TickLands(start, period, Counted(start, period, times, k - 1), times[k - 1]);
  }

  lemma {:induction false} SamePrefix(start: int, period: int, times: seq<int>, n: nat, k: nat)
    requires period > 0 && k <= n <= |times|
    ensures DeadlineAfter(start, period, times[..n], k) == DeadlineAfter(start, period, times, k)
    ensures Counted(start, period, times[..n], k) == Counted(start, period, times, k)
    decreases k
  {
    if k > 0 {
      SamePrefix(start, period, times, n, k - 1);
    }
  }
}
