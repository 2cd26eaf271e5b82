/** The access harness (src/access.cpp, include/ts/access.h): a task's declared objects, each with the
    pipe's write epoch captured at declaration, and what an unchanged epoch proves about the pipe. */
module AccessHarness {
  import opened Pipes

  datatype Grant = NoGrant | Granted | Stale

  /** `source` names the pipe whose write epoch was captured; without one the entry never goes stale. */
  datatype Declared = Declared(instance: nat, mode: Mode, source: Option<nat>, captured: nat)

  const MAX_ENTRIES := 8

  /** The current write epoch of every pipe. */
  type Epochs = nat -> nat

  predicate Matches(d: Declared, instance: nat, mode: Mode) {
    d.instance == instance && (mode == ReadOnly || d.mode == ReadWrite)
  }

  predicate Current(d: Declared, epochs: Epochs) {
    d.source.Some? ==> epochs(d.source.value) == d.captured
  }

  predicate AnyCurrent(ds: seq<Declared>, instance: nat, mode: Mode, epochs: Epochs) {
    exists k :: 0 <= k < |ds| && Matches(ds[k], instance, mode) && Current(ds[k], epochs)
  }

  class AccessContext {
    var entries: array<Declared>
    var count: nat

    ghost predicate Valid()
      reads this
    {
      entries.Length == MAX_ENTRIES && count <= MAX_ENTRIES
    }

    ghost function Contents(): seq<Declared>
      requires Valid()
      reads this, entries
    {
      entries[..count]
    }

    constructor ()
      ensures Valid() && fresh(entries) && Contents() == []
    {
      entries := new Declared[MAX_ENTRIES](_ => Declared(0, ReadOnly, None, 0));
      count := 0;
    }

    /** Declares one more object; a ninth is fatal (`false`) and leaves the context alone. */
    method Add(instance: nat, mode: Mode, source: Option<nat>, epochs: Epochs) returns (ok: bool)
      requires Valid()
      modifies this`count, entries
      ensures Valid() && ok == (|old(Contents())| < 8)
      ensures Contents() == if ok then old(Contents())
        + [Declared(instance, mode, source, if source.Some? then epochs(source.value) else 0)] else old(Contents())
    {
      ok := count != MAX_ENTRIES;
      if ok {
        entries[count] := Declared(instance, mode, source, if source.Some? then epochs(source.value) else 0);
        count := count + 1;
      }
    }

    /** Whether an access is covered: granted exactly when some matching entry is current, none exactly when
        the object is not declared, or only for reading and the access writes; stale otherwise. */
    method Check(instance: nat, mode: Mode, epochs: Epochs) returns (g: Grant)
      requires Valid()
      ensures g == Granted <==> AnyCurrent(Contents(), instance, mode, epochs)
      ensures g == Granted <==> exists k ::
        && 0 <= k < |Contents()| && Contents()[k].instance == instance
        && (mode == ReadOnly || Contents()[k].mode == ReadWrite)
        && (Contents()[k].source.Some? ==> epochs(Contents()[k].source.value) == Contents()[k].captured)
      ensures g == NoGrant <==> forall k :: 0 <= k < |Contents()| && Contents()[k].instance == instance ==>
        mode == ReadWrite && Contents()[k].mode == ReadOnly
    {
      var stale := false;
      for i := 0 to count
        invariant forall k :: 0 <= k < i ==> !(Matches(entries[k], instance, mode) && Current(entries[k], epochs))
        invariant stale <==> exists k :: 0 <= k < i && Matches(entries[k], instance, mode)
      {
        var d := entries[i];
        assert Contents()[i] == d;
        if d.instance != instance {
          continue;
        }
        if mode == ReadWrite && d.mode != ReadWrite {
          continue;
        }
        if d.source.Some? && epochs(d.source.value) != d.captured {
          stale := true;
          continue;
        }
        return Granted;
      }
      assert forall k :: 0 <= k < count ==> Contents()[k] == entries[k];
      return if stale then Stale else NoGrant;
    }
  }

  // ---- what the epoch records ----------------------------------------------------------------------

  /** The write admissions of a history, in order. */
  function Writes(admitted: seq<Entry>): seq<Entry> {
    if admitted == [] then [] else
    var last := admitted[|admitted| - 1];
    Writes(admitted[..|admitted| - 1]) + (if last.mode == ReadWrite then [last] else [])
  }

  lemma WritesOneMore(admitted: seq<Entry>, e: Entry)
    ensures Writes(admitted + [e]) == Writes(admitted) + (if e.mode == ReadWrite then [e] else [])
  {
    assert (admitted + [e])[..|admitted|] == admitted;
  }

  /** The epoch counts write admissions twice, less one while the last of them is still inside. */
  predicate EpochInv(p: PipeState) {
    var ws := Writes(p.admitted);
    && p.epoch == 2 * |ws| - (if p.writer then 1 else 0)
    && (p.writer ==> ws != [] && p.writing == {ws[|ws| - 1]})
  }

  lemma AdmitKeepsEpoch(p: PipeState, e: Entry)
    requires EpochInv(p) && !p.writer && (e.mode == ReadWrite ==> p.writing == {})
    ensures EpochInv(Admit(p, e)) && Writes(p.admitted) <= Writes(Admit(p, e).admitted)
  {
    WritesOneMore(p.admitted, e);
  }

  lemma {:induction false} CollectKeepsEpoch(p: PipeState)
    requires Sound(p) && EpochInv(p)
    ensures EpochInv(Collect(p)) && Writes(p.admitted) <= Writes(Collect(p).admitted)
    decreases |p.queue|
  {
    if p.queue != [] && Admissible(p, p.queue[0].mode) {
      PopHeadKeepsSound(p);
      AdmitKeepsEpoch(p.(queue := p.queue[1..]), p.queue[0]);
      CollectKeepsEpoch(PopHead(p));
    }
  }

  /** What can happen to one pipe: a link enters, or somebody inside releases. */
  datatype PipeLabel = Enters(e: Entry) | Releases(e: Entry)

  predicate PipeStep(p: PipeState, l: PipeLabel, p': PipeState) {
    match l
    case Enters(e) => Absent(p, e) && p' == Enter(p, e)
    case Releases(e) => Sound(p) ==> Inside(p, e) && p' == Release(p, e)
  }

  predicate PipeRun(states: seq<PipeState>, labels: seq<PipeLabel>) {
    && |states| == |labels| + 1 && states[0] == FRESH
    && forall k :: 0 <= k < |labels| ==> PipeStep(states[k], labels[k], states[k + 1])
  }

  lemma PipeStepKeeps(p: PipeState, l: PipeLabel, p': PipeState)
    requires Unlocked(p) && EpochInv(p) && PipeStep(p, l, p')
    ensures Unlocked(p') && EpochInv(p')
    ensures Writes(p.admitted) <= Writes(p'.admitted) && p.epoch <= p'.epoch
  {
    match l
    case Enters(e) =>
      EnterKeepsUnlocked(p, e);
      if Free(p, e.mode) {
        AdmitKeepsEpoch(Arrive(p, e), e);
      }
    case Releases(e) =>
      ReleaseKeepsUnlocked(p, e);
      DropKeepsSound(p, e);
      CollectKeepsEpoch(Drop(p, e));
  }

  /** Over every run of a pipe the epoch is odd exactly while a writer is inside, and never falls. */
  lemma {:induction false} RunKeepsEpoch(states: seq<PipeState>, labels: seq<PipeLabel>, i: nat, j: nat)
    requires PipeRun(states, labels) && i <= j < |states|
    ensures Unlocked(states[j]) && EpochInv(states[j])
    ensures states[j].epoch % 2 == 1 <==> states[j].writer
    ensures Writes(states[i].admitted) <= Writes(states[j].admitted) && states[i].epoch <= states[j].epoch
    decreases j
  {
    if j > 0 {
      RunKeepsEpoch(states, labels, if i < j then i else j - 1, j - 1);
      assert PipeStep(states[j - 1], labels[j - 1], states[j]);
      PipeStepKeeps(states[j - 1], labels[j - 1], states[j]);
    }
  }

  /** The holder's write window has been open without a break from `i` to `j`. */
  predicate OpenThroughout(states: seq<PipeState>, i: nat, j: nat, e: Entry)
    requires i <= j < |states|
  {
    forall k :: i <= k <= j ==> states[k].writing == {e}
  }

  /** No writer was admitted after `i`, up to `j`. */
  predicate NoWriterSince(states: seq<PipeState>, i: nat, j: nat)
    requires i <= j < |states|
  {
    Writes(states[j].admitted) == Writes(states[i].admitted)
  }

  /** Captured by a writer: the epoch is unchanged exactly while that very window is still open. */
  lemma WriteWindow(states: seq<PipeState>, labels: seq<PipeLabel>, i: nat, j: nat, e: Entry)
    requires PipeRun(states, labels) && i <= j < |states| && e in states[i].writing
    ensures states[j].epoch == states[i].epoch <==> OpenThroughout(states, i, j, e)
  {
    RunKeepsEpoch(states, labels, i, i);
    RunKeepsEpoch(states, labels, i, j);
    assert states[i].writer && states[i].writing == {e};
    if states[j].epoch == states[i].epoch {
      forall k | i <= k <= j ensures states[k].writing == {e} {
        RunKeepsEpoch(states, labels, i, k);
        RunKeepsEpoch(states, labels, k, j);
        SameWrites(states[i], states[k]);
      }
    } else if OpenThroughout(states, i, j, e) {
      var k := i;
      while k < j
        invariant i <= k <= j && states[k].epoch == states[i].epoch
      {
        assert PipeStep(states[k], labels[k], states[k + 1]);
        assert states[k].writing == {e} && states[k + 1].writing == {e};
        RunKeepsEpoch(states, labels, k, k);
        HeldStepKeepsEpoch(states[k], labels[k], states[k + 1], e);
        k := k + 1;
      }
    }
  }

  lemma SameWrites(p: PipeState, q: PipeState)
    requires EpochInv(p) && EpochInv(q) && Sound(p) && Sound(q)
    requires Writes(p.admitted) <= Writes(q.admitted) && p.epoch == q.epoch
    ensures Writes(p.admitted) == Writes(q.admitted) && p.writer == q.writer
    ensures p.writer ==> p.writing == q.writing
  {
    assert |Writes(p.admitted)| == |Writes(q.admitted)|;
  }

  lemma {:induction false} CollectAdmitsOnlyWaiters(p: PipeState, e: Entry)
    requires Sound(p) && !Inside(p, e) && e !in p.queue
    ensures !Inside(Collect(p), e)
    decreases |p.queue|
  {
    if p.queue != [] && Admissible(p, p.queue[0].mode) {
      PopHeadKeepsSound(p);
      assert p.queue[0] in p.queue;
      CollectAdmitsOnlyWaiters(PopHead(p), e);
    }
  }

  /** While a writer stays inside nobody else is admitted. */
  lemma HeldStepKeepsEpoch(p: PipeState, l: PipeLabel, p': PipeState, e: Entry)
    requires Unlocked(p) && EpochInv(p) && PipeStep(p, l, p') && p.writing == {e} && p'.writing == {e}
    ensures p'.epoch == p.epoch
  {
    assert e in p.writing && p.writer && p.reading == {};
    if l.Releases? {
      assert Inside(p, l.e) && l.e == e;
      DropKeepsSound(p, e);
      assert !Inside(Drop(p, e), e) && e !in p.queue;
      CollectAdmitsOnlyWaiters(Drop(p, e), e);
    }
  }

  /** Captured by a reader: the epoch is unchanged exactly while no writer has been admitted since. */
  lemma ReadWindow(states: seq<PipeState>, labels: seq<PipeLabel>, i: nat, j: nat, e: Entry)
    requires PipeRun(states, labels) && i <= j < |states| && e in states[i].reading
    ensures states[j].epoch == states[i].epoch <==> NoWriterSince(states, i, j)
  {
    RunKeepsEpoch(states, labels, i, i);
    RunKeepsEpoch(states, labels, i, j);
    assert !states[i].writer;
  }

  /** Who held the pipe, and when, as an entry was declared. */
  datatype Capture = Capture(at: nat, holder: Entry)

  /** The entry was declared at its capture by somebody inside the pipe in that mode. */
  predicate CapturedBy(states: seq<PipeState>, source: nat, d: Declared, c: Capture) {
    && c.at < |states| && Inside(states[c.at], c.holder) && c.holder.mode == d.mode
    && d.source == Some(source) && d.captured == states[c.at].epoch
  }

  /** The window an entry was declared in is still the pipe's current one. */
  predicate WindowOpen(states: seq<PipeState>, now: nat, c: Capture)
    requires c.at <= now < |states|
  {
    if c.holder.mode == ReadWrite then OpenThroughout(states, c.at, now, c.holder) else NoWriterSince(states, c.at, now)
  }

  /** The harness never grants outside a window and never refuses inside one: with every entry for the
      object declared by a holder of its pipe, an access is granted exactly when some matching entry's
      window is still open. */
  lemma GrantedWhileWindowOpen(states: seq<PipeState>, labels: seq<PipeLabel>, now: nat, source: nat, epochs: Epochs,
                               ds: seq<Declared>, cs: seq<Capture>, instance: nat, mode: Mode)
    requires PipeRun(states, labels) && now < |states| && epochs(source) == states[now].epoch
    requires |cs| == |ds| && forall k :: 0 <= k < |ds| ==> cs[k].at <= now
    requires forall k :: 0 <= k < |ds| && ds[k].instance == instance ==> CapturedBy(states, source, ds[k], cs[k])
    ensures AnyCurrent(ds, instance, mode, epochs) <==>
      exists k :: 0 <= k < |ds| && Matches(ds[k], instance, mode) && WindowOpen(states, now, cs[k])
  {
    forall k | 0 <= k < |ds| && Matches(ds[k], instance, mode)
      ensures Current(ds[k], epochs) <==> WindowOpen(states, now, cs[k])
    {
      var c := cs[k];
      assert CapturedBy(states, source, ds[k], c);
      if c.holder.mode == ReadWrite {
        WriteWindow(states, labels, c.at, now, c.holder);
      } else {
        ReadWindow(states, labels, c.at, now, c.holder);
      }
    }
  }

  /** A write is granted exactly when the task declared the object for writing and the declarer's write
      window has stayed open: it is inside the pipe now, alone. */
  lemma WriteIsGrantedToTheWriter(states: seq<PipeState>, labels: seq<PipeLabel>, now: nat, source: nat, epochs: Epochs,
                                  ds: seq<Declared>, cs: seq<Capture>, instance: nat)
    requires PipeRun(states, labels) && now < |states| && epochs(source) == states[now].epoch
    requires |cs| == |ds| && forall k :: 0 <= k < |ds| ==> cs[k].at <= now
    requires forall k :: 0 <= k < |ds| && ds[k].instance == instance ==> CapturedBy(states, source, ds[k], cs[k])
    ensures AnyCurrent(ds, instance, ReadWrite, epochs) <==>
      exists k :: 0 <= k < |ds| && ds[k].instance == instance && ds[k].mode == ReadWrite
        && forall i :: cs[k].at <= i <= now ==> states[i].writing == {cs[k].holder} && states[i].reading == {}
  {
    GrantedWhileWindowOpen(states, labels, now, source, epochs, ds, cs, instance, ReadWrite);
    forall i | 0 <= i <= now ensures states[i].writing != {} ==> states[i].reading == {} {
      RunKeepsEpoch(states, labels, i, i);
    }
    forall k | 0 <= k < |ds| && ds[k].instance == instance && ds[k].mode == ReadWrite
      ensures WindowOpen(states, now, cs[k]) <==>
        forall i :: cs[k].at <= i <= now ==> states[i].writing == {cs[k].holder} && states[i].reading == {}
    {
      assert CapturedBy(states, source, ds[k], cs[k]);
      assert WindowOpen(states, now, cs[k]) <==> OpenThroughout(states, cs[k].at, now, cs[k].holder);
      forall i | cs[k].at <= i <= now && states[i].writing == {cs[k].holder} ensures states[i].writing != {} {
        assert cs[k].holder in states[i].writing;
      }
    }
  }

  /** A read is granted exactly when the task declared the object and, if for writing, its window has
      stayed open, and if for reading, no writer has been admitted since.  Nobody else writes then. */
  lemma ReadIsGrantedBesideNoOtherWriter(states: seq<PipeState>, labels: seq<PipeLabel>, now: nat, source: nat, epochs: Epochs,
                                         ds: seq<Declared>, cs: seq<Capture>, instance: nat)
    requires PipeRun(states, labels) && now < |states| && epochs(source) == states[now].epoch
    requires |cs| == |ds| && forall k :: 0 <= k < |ds| ==> cs[k].at <= now
    requires forall k :: 0 <= k < |ds| && ds[k].instance == instance ==> CapturedBy(states, source, ds[k], cs[k])
    ensures AnyCurrent(ds, instance, ReadOnly, epochs) <==>
      exists k :: 0 <= k < |ds| && ds[k].instance == instance &&
        if ds[k].mode == ReadWrite then forall i :: cs[k].at <= i <= now ==> states[i].writing == {cs[k].holder}
        else Writes(states[now].admitted) == Writes(states[cs[k].at].admitted)
    ensures AnyCurrent(ds, instance, ReadOnly, epochs) ==>
      exists k :: 0 <= k < |ds| && ds[k].instance == instance && states[now].writing <= {cs[k].holder}
  {
    GrantedWhileWindowOpen(states, labels, now, source, epochs, ds, cs, instance, ReadOnly);
    forall k | 0 <= k < |ds| && ds[k].instance == instance
      ensures Matches(ds[k], instance, ReadOnly)
      ensures WindowOpen(states, now, cs[k]) <==>
        if ds[k].mode == ReadWrite then forall i :: cs[k].at <= i <= now ==> states[i].writing == {cs[k].holder}
        else Writes(states[now].admitted) == Writes(states[cs[k].at].admitted)
      ensures WindowOpen(states, now, cs[k]) ==> states[now].writing <= {cs[k].holder}
    {
      assert CapturedBy(states, source, ds[k], cs[k]);
      if ds[k].mode == ReadOnly && WindowOpen(states, now, cs[k]) {
        NobodyWrites(states, labels, cs[k].at, now, cs[k].holder);
      }
    }
  }

  /** While no writer has been admitted after a reader came in, none is inside. */
  lemma NobodyWrites(states: seq<PipeState>, labels: seq<PipeLabel>, i: nat, j: nat, e: Entry)
    requires PipeRun(states, labels) && i <= j < |states| && e in states[i].reading && NoWriterSince(states, i, j)
    ensures states[j].writing == {}
  {
    RunKeepsEpoch(states, labels, i, i);
    RunKeepsEpoch(states, labels, i, j);
    ReadWindow(states, labels, i, j, e);
  }
}
