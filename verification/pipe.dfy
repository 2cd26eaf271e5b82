/** The per-object reader/writer admission queue (`Pipe`) of src/guarded.cpp.

    `PipeState` and the functions on it say what each mutex section does to a pipe; the class
    `Pipe` performs the same sections in place and is proved equal to them.  The system of many
    pipes and many tasks (module Cascade) is built from the same functions. */
module Pipes {

  datatype Option<+T> = None | Some(value: T)

  datatype Mode = ReadOnly | ReadWrite

  /** A grant held in `have` covers an access that needs `need`. */
  predicate Covers(have: Mode, need: Mode) {
    have == ReadWrite || need == ReadOnly
  }

  /** One queued link: the owning task and the position of the link in the task's canonical order. */
  datatype Entry = Entry(task: nat, index: nat, mode: Mode)

  /** The fields of the source's pipe, `epoch` unbounded, then four that only record what happened:
      every entry that ever reached the pipe and every entry ever admitted, in order, and the entries
      inside the pipe now as readers and as writers. */
  datatype PipeState = PipeState(
    queue: seq<Entry>,
    readers: nat,
    writer: bool,
    owner: Option<nat>,
    epoch: nat,
    arrivals: seq<Entry>,
    admitted: seq<Entry>,
    reading: set<Entry>,
    writing: set<Entry>)

  const FRESH := PipeState([], 0, false, None, 0, [], [], {}, {})

  predicate Admissible(p: PipeState, mode: Mode) {
    if mode == ReadOnly then !p.writer else !p.writer && p.readers == 0
  }

  function Admit(p: PipeState, e: Entry): PipeState {
    if e.mode == ReadOnly then
      p.(readers := p.readers + 1, admitted := p.admitted + [e], reading := p.reading + {e})
    else
      p.(writer := true, owner := Some(e.task), epoch := p.epoch + 1,
         admitted := p.admitted + [e], writing := p.writing + {e})
  }

  function Arrive(p: PipeState, e: Entry): PipeState {
    p.(arrivals := p.arrivals + [e])
  }

  function Enqueue(p: PipeState, e: Entry): PipeState {
    Arrive(p, e).(queue := p.queue + [e])
  }

  /** Free for `mode` right now: nothing queued ahead and the mode rule holds. */
  predicate Free(p: PipeState, mode: Mode) {
    p.queue == [] && Admissible(p, mode)
  }

  function Enter(p: PipeState, e: Entry): PipeState {
    if Free(p, e.mode) then Admit(Arrive(p, e), e) else Enqueue(p, e)
  }

  function PopHead(p: PipeState): PipeState
    requires p.queue != []
  {
    Admit(p.(queue := p.queue[1..]), p.queue[0])
  }

  /** One admission pass. */
  function Collect(p: PipeState): PipeState
    decreases |p.queue|
  {
    if p.queue != [] && Admissible(p, p.queue[0].mode) then Collect(PopHead(p)) else p
  }

  predicate Inside(p: PipeState, e: Entry) {
    if e.mode == ReadOnly then e in p.reading else e in p.writing
  }

  function Drop(p: PipeState, e: Entry): PipeState
    requires Sound(p) && Inside(p, e)
  {
    if e.mode == ReadOnly then
      p.(readers := p.readers - 1, reading := p.reading - {e})
    else
      p.(writer := false, owner := None, epoch := p.epoch + 1, writing := p.writing - {e})
  }

  /** The whole mutex section of `release_and_redispatch`. */
  function Release(p: PipeState, e: Entry): PipeState
    requires Sound(p) && Inside(p, e)
  {
    Collect(Drop(p, e))
  }

  predicate Drained(p: PipeState) {
    p.queue == [] && p.readers == 0 && !p.writer
  }

  predicate Distinct(q: seq<Entry>) {
    forall i, j :: 0 <= i < j < |q| ==> q[i] != q[j]
  }

  /** `e` is neither waiting in the pipe nor inside it: a link is entered once before it is retired. */
  predicate Absent(p: PipeState, e: Entry) {
    e !in p.queue && !Inside(p, e)
  }

  /** The part of the invariant that holds even between two admissions of one pass: admissions
      followed by the queue are the arrivals in order, the counters count exactly who is inside, and a
      writer is inside alone. */
  predicate Sound(p: PipeState) {
    && p.arrivals == p.admitted + p.queue
    && Distinct(p.queue)
    && (forall e :: e in p.queue ==> !Inside(p, e))
    && (forall e :: e in p.reading ==> e.mode == ReadOnly)
    && (forall e :: e in p.writing ==> e.mode == ReadWrite && p.owner == Some(e.task))
    && p.readers == |p.reading|
    && |p.writing| == (if p.writer then 1 else 0)
    && (p.writer ==> p.reading == {})
    && (p.writer <==> p.owner.Some?)
    && (p.epoch % 2 == 1 <==> p.writer)
  }

  /** What every unlocked pipe satisfies: nothing admissible is left waiting. */
  predicate Unlocked(p: PipeState) {
    Sound(p) && (p.queue != [] ==> !Admissible(p, p.queue[0].mode))
  }

  /** An independent reading of one admission pass: how many waiting entries it lets in.  Behind a
      writer none, otherwise the leading readers, otherwise (nobody inside) a leading writer alone. */
  function LeadingReaders(q: seq<Entry>): (n: nat)
    ensures n <= |q|
    ensures forall i :: 0 <= i < n ==> q[i].mode == ReadOnly
    ensures n < |q| ==> !q[n].mode.ReadOnly?
  {
    if q != [] && q[0].mode == ReadOnly then 1 + LeadingReaders(q[1..]) else 0
  }

  function PassLength(p: PipeState): nat {
    if p.writer || p.queue == [] then 0
    else if p.queue[0].mode == ReadOnly then LeadingReaders(p.queue)
    else if p.readers == 0 then 1
    else 0
  }

  /** Admitting one waiting head, one step of an admission pass, keeps the pipe sound. */
  lemma PopHeadKeepsSound(p: PipeState)
    requires Sound(p) && p.queue != [] && Admissible(p, p.queue[0].mode)
    ensures Sound(PopHead(p))
    ensures forall e :: Inside(PopHead(p), e) <==> Inside(p, e) || e == p.queue[0]
  {
    var q := PopHead(p);
    var head := p.queue[0];
    assert !Inside(p, head) by { assert head in p.queue; }
    assert q.admitted + q.queue == p.admitted + p.queue;
    forall e | e in q.queue ensures e in p.queue && e != head {
      var i :| 0 <= i < |q.queue| && q.queue[i] == e;
      assert p.queue[i + 1] == e;
    }
    if head.mode != ReadOnly {
      assert p.writing == {};
      assert p.reading == {};
      assert q.writing == {head};
    }
  }

  lemma {:induction false} CollectKeepsSound(p: PipeState)
    requires Sound(p)
    ensures Unlocked(Collect(p))
    ensures forall e :: Inside(p, e) ==> Inside(Collect(p), e)
    decreases |p.queue|
  {
    if p.queue != [] && Admissible(p, p.queue[0].mode) {
      PopHeadKeepsSound(p);
      CollectKeepsSound(PopHead(p));
    }
  }

  lemma {:induction false} CollectAdmitsExactlyThePass(p: PipeState)
    ensures PassLength(p) <= |p.queue|
    ensures Collect(p).admitted == p.admitted + p.queue[..PassLength(p)]
    ensures Collect(p).queue == p.queue[PassLength(p)..]
    ensures Collect(p).readers == p.readers + (if PassLength(p) > 0 && p.queue[0].mode == ReadOnly then PassLength(p) else 0)
    ensures Collect(p).writer <==> p.writer || (PassLength(p) > 0 && p.queue[0].mode == ReadWrite)
    ensures Collect(p).arrivals == p.arrivals
    decreases |p.queue|
  {
    if p.queue != [] && Admissible(p, p.queue[0].mode) {
      var p1 := PopHead(p);
      CollectAdmitsExactlyThePass(p1);
      var k := PassLength(p1);
      assert [p.queue[0]] + p.queue[1..][..k] == p.queue[..k + 1];
      assert p1.admitted + p1.queue[..k] == p.admitted + p.queue[..k + 1];
      if p.queue[0].mode == ReadOnly {
        assert PassLength(p) == k + 1;
      } else {
        assert k == 0;
      }
    }
  }

  /** Entering keeps an unlocked pipe unlocked, and is admitted on the spot exactly when nobody waits
      and the mode rule allows it. */
  lemma EnterKeepsUnlocked(p: PipeState, e: Entry)
    requires Unlocked(p) && Absent(p, e)
    ensures Unlocked(Enter(p, e))
    ensures Enter(p, e).arrivals == p.arrivals + [e]
    ensures Free(p, e.mode) <==> Enter(p, e).admitted == p.admitted + [e]
    ensures Free(p, e.mode) <==> Inside(Enter(p, e), e)
    ensures !Free(p, e.mode) <==> e in Enter(p, e).queue
    ensures !Drained(Enter(p, e))
  {
    var q := Enter(p, e);
    if Free(p, e.mode) {
      assert q.arrivals == p.admitted + [e] + [];
      if e.mode != ReadOnly {
        assert q.writing == {e};
      }
    } else {
      assert q.arrivals == p.admitted + (p.queue + [e]);
      assert p.admitted != p.admitted + [e];
      assert e in q.queue by { assert q.queue[|p.queue|] == e; }
    }
  }

  lemma OneWriter(p: PipeState, x: Entry, y: Entry)
    requires Sound(p) && x in p.writing && y in p.writing
    ensures x == y
  {
    assert |p.writing - {x}| == 0;
  }

  lemma DropKeepsSound(p: PipeState, e: Entry)
    requires Sound(p) && Inside(p, e)
    ensures Sound(Drop(p, e))
    ensures forall x :: Inside(Drop(p, e), x) <==> Inside(p, x) && x != e
  {
    if e.mode != ReadOnly {
      assert |p.writing - {e}| == 0;
    }
  }

  /** Releasing keeps an unlocked pipe unlocked; the drain notify fires exactly when nothing was
      waiting and the released grant was the last one. */
  lemma ReleaseKeepsUnlocked(p: PipeState, e: Entry)
    requires Unlocked(p) && Inside(p, e)
    ensures Unlocked(Release(p, e))
    ensures Release(p, e).arrivals == p.arrivals
    ensures Drained(Release(p, e)) <==> p.queue == [] && p.reading + p.writing == {e}
    ensures Drained(Release(p, e)) ==> Release(p, e).admitted == p.admitted
  {
    DropKeepsSound(p, e);
    CollectKeepsSound(Drop(p, e));
    CollectAdmitsExactlyThePass(Drop(p, e));
    var d := Drop(p, e);
    assert d.reading + d.writing == p.reading + p.writing - {e};
  }

  /** No wakeup is lost: whoever waits, waits behind somebody who is inside. */
  lemma WaitersAreBehindAHolder(p: PipeState) returns (e: Entry)
    requires Unlocked(p) && p.queue != []
    ensures Inside(p, e)
    ensures p.queue[0].mode == ReadOnly ==> e.mode == ReadWrite
  {
    if p.writer {
      e :| e in p.writing;
    } else {
      e :| e in p.reading;
    }
  }

  /** The pipe object itself, updated in place under its mutex. */
  class Pipe {
    var queue: seq<Entry>
    var activeReaders: nat
    var writerActive: bool
    var writerOwner: Option<nat>
    var writeEpoch: nat
    ghost var arrivals: seq<Entry>
    ghost var admitted: seq<Entry>
    ghost var reading: set<Entry>
    ghost var writing: set<Entry>

    ghost function State(): PipeState
      reads this
    {
      PipeState(queue, activeReaders, writerActive, writerOwner, writeEpoch,
                arrivals, admitted, reading, writing)
    }

    constructor ()
      ensures State() == FRESH && Unlocked(State())
    {
      queue, activeReaders, writerActive, writerOwner, writeEpoch := [], 0, false, None, 0;
      arrivals, admitted, reading, writing := [], [], {}, {};
    }

    predicate IsAdmissible(mode: Mode)
      reads this
    {
      if mode == ReadOnly then !writerActive else !writerActive && activeReaders == 0
    }

    method AdmitLocked(e: Entry)
      modifies this
      ensures State() == Admit(old(State()), e)
    {
      admitted := admitted + [e];
      if e.mode == ReadOnly {
        activeReaders := activeReaders + 1;
        reading := reading + {e};
        return;
      }
      writerActive := true;
      writerOwner := Some(e.task);
      writeEpoch := writeEpoch + 1;
      writing := writing + {e};
    }

    /** Admits from the front while the mode rule allows, and hands back what it admitted so that the
        turns can be fired after unlock. */
    method CollectAdmissions() returns (granted: seq<Entry>)
      modifies this
      ensures State() == Collect(old(State()))
      ensures old(admitted) + granted == admitted
      ensures granted == old(queue)[..PassLength(old(State()))]
    {
      granted := [];
      while queue != [] && IsAdmissible(queue[0].mode)
        invariant Collect(State()) == Collect(old(State()))
        invariant old(admitted) + granted == admitted
        decreases |queue|
      {
        var e := queue[0];
        queue := queue[1..];
        AdmitLocked(e);
        granted := granted + [e];
      }
      CollectAdmitsExactlyThePass(old(State()));
      assert granted == (old(admitted) + granted)[|old(admitted)|..];
    }

    /** `pipe_enter_link` and `pipe_acquire`: returns whether the entry was admitted on the spot. */
    method EnterLink(e: Entry) returns (now: bool)
      requires Unlocked(State()) && Absent(State(), e)
      modifies this
      ensures State() == Enter(old(State()), e) && Unlocked(State())
      ensures now <==> Free(old(State()), e.mode)
    {
      EnterKeepsUnlocked(State(), e);
      arrivals := arrivals + [e];
      now := queue == [] && IsAdmissible(e.mode);
      if now {
        AdmitLocked(e);
      } else {
        queue := queue + [e];
      }
    }

    /** The bookkeeping half of a release. */
    method DropLocked(mode: Mode, ghost e: Entry)
      requires Sound(State()) && Inside(State(), e) && e.mode == mode
      modifies this
      ensures State() == Drop(old(State()), e)
    {
      if mode == ReadOnly {
        activeReaders := activeReaders - 1;
        reading := reading - {e};
      } else {
        writerActive := false;
        writerOwner := None;
        writeEpoch := writeEpoch + 1;
        writing := writing - {e};
      }
    }

    /** `release_and_redispatch` up to the unlock: the entries to fire, and whether the drain notify
        was sent. */
    method ReleaseAndRedispatch(mode: Mode, ghost e: Entry) returns (granted: seq<Entry>, notified: bool)
      requires Unlocked(State()) && Inside(State(), e) && e.mode == mode
      modifies this
      ensures State() == Release(old(State()), e) && Unlocked(State())
      ensures admitted == old(admitted) + granted
      ensures notified <==> Drained(State())
      ensures notified ==> granted == []
    {
      ReleaseKeepsUnlocked(State(), e);
      DropLocked(mode, e);
      granted := CollectAdmissions();
      notified := queue == [] && activeReaders == 0 && !writerActive;
      if notified {
        assert |old(admitted) + granted| == |old(admitted)|;
      }
    }
  }
}
