/** One worker's search for its next task (`Scheduler::find_work`, src/scheduler.cpp): strict high, two
    aging valves, own deque, global normal, a wrap-around steal scan, and low last. */
module FindWork {
  import opened Pipes

  const LOW_VALVE := 64
  const GLOBAL_VALVE := 61

  /** The three global queues, first in first out, and one deque per worker whose owner works at the
      back and whose thieves take from the front.  Tasks are named by numbers. */
  datatype Queues = Queues(high: seq<nat>, normal: seq<nat>, low: seq<nat>, local: seq<seq<nat>>)

  /** The worker's aging counters. */
  datatype Aging = Aging(sinceLow: nat, sinceGlobal: nat)

  datatype Source = High | AgedLow | AgedNormal | Own | Normal | Stolen(victim: nat) | Low | Nothing

  /** The first other worker with work, going around from offset `i`. */
  function Victim(local: seq<seq<nat>>, w: nat, start: nat, i: nat): Option<nat>
    requires start < |local| && i <= |local|
    decreases |local| - i
  {
    if i == |local| then None else
    var v := Around(|local|, start, i);
    if v != w && local[v] != [] then Some(v) else Victim(local, w, start, i + 1)
  }

  function Around(n: nat, start: nat, i: nat): (v: nat)
    requires start < n && i < n
    ensures v < n && (v == start + i || v == start + i - n)
  {
    if start + i >= n then start + i - n else start + i
  }

  function Choose(q: Queues, a: Aging, w: nat, start: nat): Source
    requires w < |q.local| && start < |q.local|
  {
    if q.high != [] then High
    else if a.sinceLow >= LOW_VALVE && q.low != [] then AgedLow
    else if a.sinceGlobal >= GLOBAL_VALVE && q.normal != [] then AgedNormal
    else if q.local[w] != [] then Own
    else if q.normal != [] then Normal
    else
      var v := Victim(q.local, w, start, 0);
      if v.Some? then Stolen(v.value) else if q.low != [] then Low else Nothing
  }

  predicate CanServe(q: Queues, w: nat, src: Source)
    requires w < |q.local|
  {
    match src
    case High => q.high != []
    case AgedLow => q.low != []
    case Low => q.low != []
    case AgedNormal => q.normal != []
    case Normal => q.normal != []
    case Own => q.local[w] != []
    case Stolen(v) => v < |q.local| && v != w && q.local[v] != []
    case Nothing => true
  }

  function Served(q: Queues, w: nat, src: Source): Option<nat>
    requires w < |q.local| && CanServe(q, w, src)
  {
    match src
    case High => Some(q.high[0])
    case AgedLow => Some(q.low[0])
    case Low => Some(q.low[0])
    case AgedNormal => Some(q.normal[0])
    case Normal => Some(q.normal[0])
    case Own => Some(q.local[w][|q.local[w]| - 1])
    case Stolen(v) => Some(q.local[v][0])
    case Nothing => None
  }

  function Rest(q: Queues, w: nat, src: Source): Queues
    requires w < |q.local| && CanServe(q, w, src)
  {
    match src
    case High => q.(high := q.high[1..])
    case AgedLow => q.(low := q.low[1..])
    case Low => q.(low := q.low[1..])
    case AgedNormal => q.(normal := q.normal[1..])
    case Normal => q.(normal := q.normal[1..])
    case Own => q.(local := q.local[w := q.local[w][..|q.local[w]| - 1]])
    case Stolen(v) => q.(local := q.local[v := q.local[v][1..]])
    case Nothing => q
  }

  /** The counters after a call; each valve starts over when it was tried, served or not. */
  function Aged(a: Aging, src: Source): Aging {
    var low := if a.sinceLow >= LOW_VALVE then 0 else a.sinceLow;
    var global := if a.sinceGlobal >= GLOBAL_VALVE then 0 else a.sinceGlobal;
    match src
    case High => Aging(a.sinceLow + 1, a.sinceGlobal)
    case AgedLow => Aging(0, a.sinceGlobal)
    case AgedNormal => Aging(low + 1, 0)
    case Own => Aging(low + 1, global + 1)
    case Normal => Aging(low + 1, 0)
    case Stolen(_) => Aging(low + 1, global)
    case Low => Aging(0, global)
    case Nothing => Aging(low, global)
  }

  // ---- the search itself --------------------------------------------------------------------------

  class Worker {
    var high: seq<nat>
    var normal: seq<nat>
    var low: seq<nat>
    var local: seq<seq<nat>>
    var sinceLow: nat
    var sinceGlobal: nat

    ghost function State(): Queues
      reads this
    {
      Queues(high, normal, low, local)
    }

    ghost function Counters(): Aging
      reads this
    {
      Aging(sinceLow, sinceGlobal)
    }

    /** `start` is the random first victim. */
    method Find(w: nat, start: nat) returns (out: Option<nat>)
      requires w < |local| && start < |local|
      modifies this
      ensures var src := Choose(old(State()), old(Counters()), w, start);
        && CanServe(old(State()), w, src)
        && out == Served(old(State()), w, src)
        && State() == Rest(old(State()), w, src)
        && Counters() == Aged(old(Counters()), src)
    {
      ghost var q, a := State(), Counters();
      VictimIsFirst(q, w, start, 0);
      if high != [] {
        out, high := Some(high[0]), high[1..];
        sinceLow := sinceLow + 1;
        return;
      }
      if sinceLow >= LOW_VALVE {
        if low != [] {
          out, low := Some(low[0]), low[1..];
          sinceLow := 0;
          return;
        }
        sinceLow := 0;
      }
      if sinceGlobal >= GLOBAL_VALVE {
        sinceGlobal := 0;
        if normal != [] {
          out, normal := Some(normal[0]), normal[1..];
          sinceLow := sinceLow + 1;
          return;
        }
      }
      if local[w] != [] {
        var d := local[w];
        out, local := Some(d[|d| - 1]), local[w := d[..|d| - 1]];
        sinceLow, sinceGlobal := sinceLow + 1, sinceGlobal + 1;
        return;
      }
      if normal != [] {
        out, normal := Some(normal[0]), normal[1..];
        sinceLow, sinceGlobal := sinceLow + 1, 0;
        return;
      }
      out := Steal(w, start);
      if out.Some? {
        return;
      }
      if low != [] {
        out, low := Some(low[0]), low[1..];
        sinceLow := 0;
      }
    }

    method Steal(w: nat, start: nat) returns (out: Option<nat>)
      requires w < |local| && start < |local| && local[w] == []
      modifies `local, `sinceLow
      ensures match Victim(old(local), w, start, 0)
        case Some(v) => v < |old(local)| && old(local[v]) != [] && out == Some(old(local[v][0]))
          && local == old(local)[v := old(local[v][1..])] && sinceLow == old(sinceLow) + 1
        case None => out == None && local == old(local) && sinceLow == old(sinceLow)
    {
      var n := |local|;
      if n > 1 {
        for i := 0 to n
          invariant local == old(local) && sinceLow == old(sinceLow)
          invariant Victim(local, w, start, 0) == Victim(local, w, start, i)
        {
          var v := start + i;
          if v >= n {
            v := v - n;
          }
          if v == w {
            continue;
          }
          if local[v] != [] {
            out, local := Some(local[v][0]), local[v := local[v][1..]];
            sinceLow := sinceLow + 1;
            return;
          }
        }
      }
      return None;
    }
  }

  // ---- what it guarantees -------------------------------------------------------------------------

  /** Nobody to steal from at offsets `i .. k`. */
  predicate PassedOver(q: Queues, w: nat, start: nat, i: nat, k: nat)
    requires start < |q.local| && k <= |q.local|
  {
    forall j :: i <= j < k ==> Around(|q.local|, start, j) == w || q.local[Around(|q.local|, start, j)] == []
  }

  /** The scan finds a victim exactly when another worker has work, whatever the starting point, and
      takes the first one on its way around. */
  lemma {:induction false} VictimIsFirst(q: Queues, w: nat, start: nat, i: nat)
    requires start < |q.local| && i <= |q.local|
    ensures match Victim(q.local, w, start, i)
      case Some(v) => v < |q.local| && v != w && q.local[v] != []
        && exists k :: i <= k < |q.local| && v == Around(|q.local|, start, k) && PassedOver(q, w, start, i, k)
      case None => PassedOver(q, w, start, i, |q.local|)
    decreases |q.local| - i
  {
    if i < |q.local| {
      var v := Around(|q.local|, start, i);
      if v != w && q.local[v] != [] {
        assert PassedOver(q, w, start, i, i);
      } else {
        VictimIsFirst(q, w, start, i + 1);
        var found := Victim(q.local, w, start, i + 1);
        if found.Some? {
          var k :| i + 1 <= k < |q.local| && found.value == Around(|q.local|, start, k) && PassedOver(q, w, start, i + 1, k);
          assert PassedOver(q, w, start, i, k);
        }
      }
    }
  }

  predicate NothingAnywhere(q: Queues) {
    q.high == [] && q.low == [] && NoNormal(q)
  }

  predicate NoNormal(q: Queues) {
    q.normal == [] && forall v :: 0 <= v < |q.local| ==> q.local[v] == []
  }

  lemma NobodyToRob(q: Queues, w: nat, start: nat)
    requires w < |q.local| && start < |q.local| && q.local[w] == [] && Victim(q.local, w, start, 0) == None
    ensures forall v :: 0 <= v < |q.local| ==> q.local[v] == []
  {
    VictimIsFirst(q, w, start, 0);
    forall v | 0 <= v < |q.local| ensures q.local[v] == [] {
      var k := if v >= start then v - start else v + |q.local| - start;
      assert Around(|q.local|, start, k) == v;
    }
  }

  /** A worker comes back empty-handed exactly when there is no task anywhere, and takes a low task
      outside the valve exactly when low is all there is. */
  lemma LowIsLast(q: Queues, a: Aging, w: nat, start: nat)
    requires w < |q.local| && start < |q.local|
    ensures CanServe(q, w, Choose(q, a, w, start))
    ensures Choose(q, a, w, start) == Nothing <==> NothingAnywhere(q)
    ensures Choose(q, a, w, start) == Low <==>
      q.high == [] && NoNormal(q) && q.low != [] && a.sinceLow < 64
  {
    VictimIsFirst(q, w, start, 0);
    if q.local[w] == [] && Victim(q.local, w, start, 0) == None {
      NobodyToRob(q, w, start);
    }
  }

  /** A valve has work to serve ahead of the own deque. */
  predicate ValveServes(q: Queues, a: Aging) {
    (a.sinceLow >= 64 && q.low != []) || (a.sinceGlobal >= 61 && q.normal != [])
  }

  /** Neither high work nor a valve comes first. */
  predicate Ordinary(q: Queues, a: Aging) {
    q.high == [] && !ValveServes(q, a)
  }

  /** The order of the search, source by source: exactly when each one is chosen. */
  lemma EachSourceExactly(q: Queues, a: Aging, w: nat, start: nat)
    requires w < |q.local| && start < |q.local|
    ensures var src := Choose(q, a, w, start);
      && (src == High <==> q.high != [])
      && (src == AgedLow <==> q.high == [] && a.sinceLow >= 64 && q.low != [])
      && (src == AgedNormal <==> q.high == [] && !(a.sinceLow >= 64 && q.low != []) && a.sinceGlobal >= 61 && q.normal != [])
      && (src == Own <==> Ordinary(q, a) && q.local[w] != [])
      && (src == Normal <==> Ordinary(q, a) && q.local[w] == [] && q.normal != [])
      && (src.Stolen? <==> Ordinary(q, a) && q.local[w] == [] && q.normal == []
                           && exists v :: 0 <= v < |q.local| && v != w && q.local[v] != [])
  {
    VictimIsFirst(q, w, start, 0);
    if q.local[w] == [] && Victim(q.local, w, start, 0) == None {
      NobodyToRob(q, w, start);
    }
  }

  /** Which end a task comes from: putting the task back at the front of a global queue or of a robbed
      deque, or at the back of the own deque, restores the queues. */
  lemma PutBackRestores(q: Queues, w: nat, src: Source)
    requires w < |q.local| && CanServe(q, w, src)
    ensures src == Nothing <==> Served(q, w, src) == None
    ensures |Rest(q, w, src).local| == |q.local|
    ensures src == Nothing ==> Rest(q, w, src) == q
    ensures src != Nothing ==> var rest, t := Rest(q, w, src), Served(q, w, src).value;
      && (src == High ==> rest.(high := [t] + rest.high) == q)
      && (src in {AgedLow, Low} ==> rest.(low := [t] + rest.low) == q)
      && (src in {AgedNormal, Normal} ==> rest.(normal := [t] + rest.normal) == q)
      && (src == Own ==> rest.(local := rest.local[w := rest.local[w] + [t]]) == q)
      && (src.Stolen? ==> src.victim < |q.local| && src.victim != w
                          && rest.(local := rest.local[src.victim := [t] + rest.local[src.victim]]) == q)
  {
    match src
    case Own =>
      var d := q.local[w];
      assert d[..|d| - 1] + [d[|d| - 1]] == d;
      assert q.local[w := d[..|d| - 1]][w := d] == q.local;
    case Stolen(v) =>
      var d := q.local[v];
      assert [d[0]] + d[1..] == d;
      assert q.local[v := d[1..]][v := d] == q.local;
    case _ =>
  }

  /** What the counters count.  The low one grows with every task that is not low and starts over with a
      low one; the global one grows with own takes only and starts over with a global normal task.  A valve
      whose turn came starts its counter over before the search goes on, served or not. */
  lemma CountersCount(q: Queues, a: Aging, w: nat, start: nat)
    requires w < |q.local| && start < |q.local|
    ensures var src := Choose(q, a, w, start);
      var low := if q.high == [] && a.sinceLow >= 64 then 0 else a.sinceLow;
      var global := if q.high == [] && src != AgedLow && a.sinceGlobal >= 61 then 0 else a.sinceGlobal;
      && Aged(a, src).sinceLow == (if src in {AgedLow, Low} then 0 else if src == Nothing then low else low + 1)
      && Aged(a, src).sinceGlobal == (if src in {AgedNormal, Normal} then 0 else if src == Own then global + 1 else global)
  {
    EachSourceExactly(q, a, w, start);
  }

  /** How often a task is queued anywhere. */
  function Tally(q: Queues, t: nat): nat {
    multiset(q.high)[t] + multiset(q.normal)[t] + multiset(q.low)[t] + DequeTally(q.local, t)
  }

  function DequeTally(local: seq<seq<nat>>, t: nat): nat {
    if local == [] then 0 else DequeTally(local[..|local| - 1], t) + multiset(local[|local| - 1])[t]
  }

  lemma {:induction false} DequeTallyUpdate(local: seq<seq<nat>>, v: nat, d: seq<nat>, t: nat)
    requires v < |local|
    ensures DequeTally(local[v := d], t) + multiset(local[v])[t] == DequeTally(local, t) + multiset(d)[t]
    decreases |local|
  {
    var n := |local| - 1;
    if v == n {
      assert local[v := d][..n] == local[..n];
    } else {
      assert local[v := d][..n] == local[..n][v := d];
      DequeTallyUpdate(local[..n], v, d, t);
    }
  }

  lemma HeadTally(s: seq<nat>, t: nat)
    requires s != []
    ensures multiset(s)[t] == multiset(s[1..])[t] + (if t == s[0] then 1 else 0)
    ensures multiset(s)[t] == multiset(s[..|s| - 1])[t] + (if t == s[|s| - 1] then 1 else 0)
  {
    assert s == [s[0]] + s[1..];
    assert s == s[..|s| - 1] + [s[|s| - 1]];
  }

  lemma DequeTaskLeaves(q: Queues, w: nat, src: Source, t: nat)
    requires w < |q.local| && CanServe(q, w, src) && (src.Own? || src.Stolen?)
    ensures DequeTally(q.local, t) == DequeTally(Rest(q, w, src).local, t) + (if Served(q, w, src) == Some(t) then 1 else 0)
  {
    var v := if src.Own? then w else src.victim;
    var d := q.local[v];
    HeadTally(d, t);
    DequeTallyUpdate(q.local, v, if src.Own? then d[..|d| - 1] else d[1..], t);
  }

  /** A call removes the task it returns, once, and no other. */
  lemma NoTaskIsLost(q: Queues, w: nat, src: Source, t: nat)
    requires w < |q.local| && CanServe(q, w, src)
    ensures Tally(q, t) == Tally(Rest(q, w, src), t) + (if Served(q, w, src) == Some(t) then 1 else 0)
  {
    match src
    case Own => DequeTaskLeaves(q, w, src, t);
    case Stolen(_) => DequeTaskLeaves(q, w, src, t);
    case High => HeadTally(q.high, t);
    case AgedLow => HeadTally(q.low, t);
    case Low => HeadTally(q.low, t);
    case AgedNormal => HeadTally(q.normal, t);
    case Normal => HeadTally(q.normal, t);
    case Nothing =>
  }

  // ---- starvation bounds --------------------------------------------------------------------------

  /** One call as the worker sees it: the queues are whatever the others left, the counters are its own. */
  datatype Call = Call(q: Queues, a: Aging, start: nat)

  predicate CallOk(c: Call, w: nat) {
    w < |c.q.local| && c.start < |c.q.local|
  }

  function Taken(c: Call, w: nat): Source
    requires CallOk(c, w)
  {
    Choose(c.q, c.a, w, c.start)
  }

  /** Consecutive calls of one worker; between them the queues may change in any way. */
  predicate Calls(cs: seq<Call>, w: nat) {
    && (forall k :: 0 <= k < |cs| ==> CallOk(cs[k], w))
    && forall k :: 0 <= k < |cs| - 1 ==> cs[k + 1].a == Aged(cs[k].a, Taken(cs[k], w))
  }

  /** While no low task is taken, the counter grows by one a call. */
  lemma {:induction false} LowAges(cs: seq<Call>, w: nat, k: nat)
    requires Calls(cs, w) && k < |cs|
    requires forall j :: 0 <= j < |cs| ==> cs[j].q.high == [] && cs[j].q.low != []
    requires forall j :: 0 <= j < k ==> Taken(cs[j], w) !in {AgedLow, Low}
    ensures cs[k].a.sinceLow >= k
    decreases k
  {
    if k > 0 {
      LowAges(cs, w, k - 1);
      assert CallOk(cs[k - 1], w);
      LowIsLast(cs[k - 1].q, cs[k - 1].a, w, cs[k - 1].start);
      assert cs[k - 1 + 1].a == Aged(cs[k - 1].a, Taken(cs[k - 1], w));
    }
  }

  /** If high work is absent and low work present at each of 65 calls, one of them takes a low task. */
  lemma LowWithin65(cs: seq<Call>, w: nat)
    requires Calls(cs, w) && |cs| == 65
    requires forall j :: 0 <= j < |cs| ==> cs[j].q.high == [] && cs[j].q.low != []
    ensures exists k :: 0 <= k < |cs| && Taken(cs[k], w) in {AgedLow, Low}
  {
    if forall j :: 0 <= j < LOW_VALVE ==> Taken(cs[j], w) !in {AgedLow, Low} {
      LowAges(cs, w, LOW_VALVE);
      assert Taken(cs[LOW_VALVE], w) == AgedLow;
    }
  }

  /** What `k` calls without a global normal task were: own-deque takes, and at most one low one. */
  predicate OwnOrLow(a: Aging, k: nat, lows: nat) {
    && lows <= 1 && lows <= k
    && a.sinceGlobal >= k - lows && k - lows <= GLOBAL_VALVE
    && (lows == 1 ==> a.sinceLow <= k - 1)
  }

  lemma {:induction false} NormalAges(cs: seq<Call>, w: nat, k: nat) returns (lows: nat)
    requires Calls(cs, w) && k < |cs| <= GLOBAL_VALVE + 2
    requires forall j :: 0 <= j < |cs| ==> cs[j].q.high == [] && cs[j].q.normal != []
    requires forall j :: 0 <= j < k ==> Taken(cs[j], w) !in {AgedNormal, Normal}
    ensures OwnOrLow(cs[k].a, k, lows)
    decreases k
  {
    lows := 0;
    if k > 0 {
      lows := NormalAges(cs, w, k - 1);
      var c := cs[k - 1];
      assert CallOk(c, w) && Taken(c, w) in {AgedLow, Own};
      assert cs[k - 1 + 1].a == Aged(c.a, Taken(c, w));
      if Taken(c, w) == AgedLow {
        lows := lows + 1;
      }
    }
  }

  /** If high work is absent and global normal work present at each of 63 calls, one of them takes a
      global normal task, even against a worker that keeps refilling its own deque. */
  lemma NormalWithin63(cs: seq<Call>, w: nat)
    requires Calls(cs, w) && |cs| == 63
    requires forall j :: 0 <= j < |cs| ==> cs[j].q.high == [] && cs[j].q.normal != []
    ensures exists k :: 0 <= k < |cs| && Taken(cs[k], w) in {AgedNormal, Normal}
  {
    var n := GLOBAL_VALVE + 1;
    if forall j :: 0 <= j < n ==> Taken(cs[j], w) !in {AgedNormal, Normal} {
      var lows := NormalAges(cs, w, n);
      assert Taken(cs[n], w) == AgedNormal;
    }
  }

  /** A call that sees no high work leaves at most 64 in the low counter, and the global counter never
      passes 61. */
  lemma {:induction false} CountersAreCapped(cs: seq<Call>, w: nat, k: nat)
    requires Calls(cs, w) && k < |cs| && cs[0].a == Aging(0, 0)
    ensures cs[k].a.sinceGlobal <= 61
    ensures k == 0 || cs[k - 1].q.high == [] ==> cs[k].a.sinceLow <= 64
    decreases k
  {
    if k > 0 {
      CountersAreCapped(cs, w, k - 1);
      assert CallOk(cs[k - 1], w);
      assert cs[k - 1 + 1].a == Aged(cs[k - 1].a, Taken(cs[k - 1], w));
    }
  }

  /** Calls `j .. k` are a streak that saw high work, as long as it goes back. */
  predicate HighStreak(cs: seq<Call>, j: nat, k: nat) {
    j <= k < |cs| && (j == 0 || cs[j - 1].q.high == []) && forall i :: j <= i < k ==> cs[i].q.high != []
  }

  /** Exactly when the low counter stays within its threshold: a streak of calls that see high work starts
      with at most 64 in it, and it is still within 64 after them if and only if the streak is no longer
      than what was left. */
  lemma CapHoldsExactly(cs: seq<Call>, w: nat, j: nat, k: nat)
    requires Calls(cs, w) && cs != [] && cs[0].a == Aging(0, 0) && HighStreak(cs, j, k)
    ensures cs[j].a.sinceLow <= 64
    ensures cs[k].a.sinceLow <= 64 <==> k - j <= 64 - cs[j].a.sinceLow
  {
    CountersAreCapped(cs, w, j);
    HighStreamRaisesCounter(cs, w, j, k);
  }

  /** Every call of a run belongs to exactly such a streak, so the condition covers every call. */
  lemma {:induction false} EveryCallIsInAStreak(cs: seq<Call>, k: nat) returns (j: nat)
    requires k < |cs|
    ensures HighStreak(cs, j, k)
    decreases k
  {
    if k == 0 || cs[k - 1].q.high == [] {
      j := k;
    } else {
      j := EveryCallIsInAStreak(cs, k - 1);
    }
  }

  /** High tasks are counted without looking at the valve, so a stream of them raises the low counter by
      one a call, without bound. */
  lemma {:induction false} HighStreamRaisesCounter(cs: seq<Call>, w: nat, j: nat, k: nat)
    requires Calls(cs, w) && j <= k < |cs| && forall i :: j <= i < k ==> cs[i].q.high != []
    ensures cs[k].a.sinceLow == cs[j].a.sinceLow + (k - j)
    decreases k
  {
    if k > j {
      HighStreamRaisesCounter(cs, w, j, k - 1);
      assert CallOk(cs[k - 1], w);
      assert cs[k - 1 + 1].a == Aged(cs[k - 1].a, Taken(cs[k - 1], w));
    }
  }
}
