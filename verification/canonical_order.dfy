/** The canonical order of a task's objects: the in-place insertion sort by pipe that every multi-object
    operation runs before its links are bound (include/ts/guarded.h, include/ts/coroutine_support.h). */
module CanonicalOrder {
  import opened Pipes
  import opened Cascade

  datatype Target = Target(pipe: nat, mode: Mode)

  /** A sorted position: the pipe, the mode the body needs, and where the object was declared. */
  datatype Slot = Slot(pipe: nat, mode: Mode, decl: nat)

  function SlotOf(targets: seq<Target>, k: nat): Slot
    requires k < |targets|
  {
    Slot(targets[k].pipe, targets[k].mode, k)
  }

  predicate Climbs(s: seq<Slot>) {
    forall i, j :: 0 <= i < j < |s| ==> s[i].pipe < s[j].pipe
  }

  /** `s` is the first `|s|` targets, each with its own mode and place, strictly ascending by pipe. */
  predicate Canonical(targets: seq<Target>, s: seq<Slot>) {
    && |s| <= |targets| && Climbs(s)
    && (forall i :: 0 <= i < |s| ==> s[i].decl < |s| && s[i] == SlotOf(targets, s[i].decl))
    && (forall k :: 0 <= k < |s| ==> Placed(s, k))
  }

  predicate Placed(s: seq<Slot>, k: nat) {
    exists i :: 0 <= i < |s| && s[i].decl == k
  }

  predicate Repeated(targets: seq<Target>) {
    exists j, k :: 0 <= j < k < |targets| && targets[j].pipe == targets[k].pipe
  }

  /** Where the next target goes: past all smaller pipes. */
  predicate FitsAt(s: seq<Slot>, pipe: nat, i: nat) {
    && i <= |s|
    && (forall j :: 0 <= j < i ==> s[j].pipe < pipe)
    && (forall j :: i <= j < |s| ==> pipe < s[j].pipe)
  }

  function Inserted(s: seq<Slot>, i: nat, x: Slot): seq<Slot>
    requires i <= |s|
  {
    s[..i] + [x] + s[i..]
  }

  /** Where each slot of the longer list comes from. */
  lemma InsertedAt(s: seq<Slot>, i: nat, x: Slot, j: nat)
    requires i <= |s| && j <= |s|
    ensures Inserted(s, i, x)[j] == if j < i then s[j] else if j == i then x else s[j - 1]
  {
  }

  lemma InsertedClimbs(s: seq<Slot>, i: nat, x: Slot)
    requires Climbs(s) && FitsAt(s, x.pipe, i)
    ensures Climbs(Inserted(s, i, x))
  {
    var s' := Inserted(s, i, x);
    forall a, b | 0 <= a < b < |s'| ensures s'[a].pipe < s'[b].pipe {
      InsertedAt(s, i, x, a);
      InsertedAt(s, i, x, b);
    }
  }

  lemma InsertIsCanonical(targets: seq<Target>, s: seq<Slot>, i: nat)
    requires Canonical(targets, s) && |s| < |targets| && FitsAt(s, targets[|s|].pipe, i)
    ensures Canonical(targets, Inserted(s, i, SlotOf(targets, |s|)))
  {
    var x := SlotOf(targets, |s|);
    var s' := Inserted(s, i, x);
    InsertedClimbs(s, i, x);
    forall j | 0 <= j < |s'| ensures s'[j].decl < |s'| && s'[j] == SlotOf(targets, s'[j].decl) {
      InsertedAt(s, i, x, j);
    }
    forall k | 0 <= k < |s'| ensures Placed(s', k) {
      if k < |s| {
        assert Placed(s, k);
        var j :| 0 <= j < |s| && s[j].decl == k;
        InsertedAt(s, i, x, if j < i then j else j + 1);
      } else {
        InsertedAt(s, i, x, i);
      }
    }
  }

  lemma CanonicalHasNoRepeat(targets: seq<Target>, s: seq<Slot>)
    requires Canonical(targets, s) && |s| == |targets|
    ensures !Repeated(targets)
  {
    forall j, k | 0 <= j < k < |targets| ensures targets[j].pipe != targets[k].pipe {
      assert Placed(s, j) && Placed(s, k);
      var a :| 0 <= a < |s| && s[a].decl == j;
      var b :| 0 <= b < |s| && s[b].decl == k;
    }
  }

  /** Opens a gap at `i` and fills it. */
  method InsertAt(a: array<Slot>, n: nat, i: nat, x: Slot)
    requires i <= n < a.Length
    modifies a
    ensures a[..n + 1] == old(a[..i]) + [x] + old(a[i..n])
  {
    var j := n;
    while j > i
      invariant i <= j <= n
      invariant a[..j] == old(a[..j])
      invariant a[j + 1..n + 1] == old(a[j..n])
    {
      a[j] := a[j - 1];
      assert a[j..n + 1] == [a[j]] + a[j + 1..n + 1];
      j := j - 1;
    }
    a[i] := x;
    assert a[..n + 1] == a[..i] + [a[i]] + a[i + 1..n + 1];
  }

  /** Past all smaller pipes of the sorted part. */
  method FindPlace(a: array<Slot>, n: nat, pipe: nat) returns (i: nat)
    requires n <= a.Length && Climbs(a[..n])
    ensures i <= n && ((i < n && a[i].pipe == pipe) || FitsAt(a[..n], pipe, i))
  {
    i := 0;
    while i < n && a[i].pipe < pipe
      invariant i <= n && forall j :: 0 <= j < i ==> a[j].pipe < pipe
    {
      i := i + 1;
    }
    ghost var s := a[..n];
    if i < n {
      assert forall j :: i < j < n ==> s[i].pipe < s[j].pipe;
    }
  }

  /** Sorts the targets into `a`; `false` is the fatal exit for an object passed twice. */
  method BindTargets(targets: seq<Target>, a: array<Slot>) returns (ok: bool)
    requires a.Length == |targets|
    modifies a
    ensures ok <==> !Repeated(targets)
    ensures ok ==> Canonical(targets, a[..])
  {
    for n := 0 to |targets|
      invariant Canonical(targets, a[..n])
    {
      var pk := targets[n].pipe;
      var i := FindPlace(a, n, pk);
      ghost var s := a[..n];
      if i < n && a[i].pipe == pk {
        assert s[i] == SlotOf(targets, s[i].decl);
        return false;
      }
      InsertIsCanonical(targets, s, i);
      InsertAt(a, n, i, SlotOf(targets, n));
      assert a[..n + 1] == Inserted(s, i, SlotOf(targets, n));
    }
    assert a[..|targets|] == a[..];
    CanonicalHasNoRepeat(targets, a[..]);
    return true;
  }

  function LinksOf(s: seq<Slot>): seq<Link> {
    seq(|s|, i requires 0 <= i < |s| => Link(s[i].pipe, s[i].mode))
  }

  lemma LastIsLargest(ls: seq<Link>, lt: seq<Link>)
    requires Ascending(ls) && Ascending(lt) && ls != [] && lt != []
    requires forall l :: l in ls ==> l in lt
    ensures ls[|ls| - 1].pipe <= lt[|lt| - 1].pipe
    ensures ls[|ls| - 1].pipe == lt[|lt| - 1].pipe ==> ls[|ls| - 1] == lt[|lt| - 1]
  {
    var l := ls[|ls| - 1];
    assert l in lt;
    var k :| 0 <= k < |lt| && lt[k] == l;
    assert k < |lt| - 1 ==> lt[k].pipe < lt[|lt| - 1].pipe;
  }

  lemma WithoutLast(ls: seq<Link>, l: Link)
    requires Ascending(ls) && ls != []
    ensures Ascending(ls[..|ls| - 1])
    ensures l in ls[..|ls| - 1] <==> l in ls && l != ls[|ls| - 1]
  {
    var m := |ls| - 1;
    if l in ls[..m] {
      var k :| 0 <= k < m && ls[..m][k] == l;
      assert ls[k] == l && ls[k].pipe < ls[m].pipe;
    }
    if l in ls && l != ls[m] {
      var k :| 0 <= k < |ls| && ls[k] == l;
      assert ls[..m][k] == l;
    }
  }

  /** There is only one ascending arrangement of a set of links. */
  lemma {:induction false} AscendingIsUnique(ls: seq<Link>, lt: seq<Link>)
    requires Ascending(ls) && Ascending(lt) && forall l :: l in ls <==> l in lt
    ensures ls == lt
    decreases |ls|
  {
    assert lt == [] || lt[0] in ls;
    if ls != [] {
      assert ls[0] in lt;
      LastIsLargest(ls, lt);
      LastIsLargest(lt, ls);
      var m, n := |ls| - 1, |lt| - 1;
      forall l ensures l in ls[..m] <==> l in lt[..n] {
        WithoutLast(ls, l);
        WithoutLast(lt, l);
      }
      WithoutLast(ls, ls[m]);
      WithoutLast(lt, lt[n]);
      AscendingIsUnique(ls[..m], lt[..n]);
      assert ls == ls[..m] + [ls[m]] && lt == lt[..n] + [lt[n]];
    }
  }

  lemma LinksAreTheTargets(targets: seq<Target>, s: seq<Slot>, l: Link)
    requires Canonical(targets, s) && |s| == |targets|
    ensures Ascending(LinksOf(s))
    ensures l in LinksOf(s) <==> Target(l.pipe, l.mode) in targets
  {
    if l in LinksOf(s) {
      var i :| 0 <= i < |s| && LinksOf(s)[i] == l;
      assert targets[s[i].decl] == Target(l.pipe, l.mode);
    }
    if Target(l.pipe, l.mode) in targets {
      var k :| 0 <= k < |targets| && targets[k] == Target(l.pipe, l.mode);
      assert Placed(s, k);
      var i :| 0 <= i < |s| && s[i].decl == k;
      assert LinksOf(s)[i] == l;
    }
  }

  /** The same objects in any order of declaration give the same links, which climb as the cascade
      demands. */
  lemma DeclarationOrderIsIrrelevant(ts: seq<Target>, us: seq<Target>, s: seq<Slot>, u: seq<Slot>)
    requires Canonical(ts, s) && |s| == |ts| && Canonical(us, u) && |u| == |us|
    requires forall x :: x in ts <==> x in us
    ensures LinksOf(s) == LinksOf(u) && Ascending(LinksOf(s))
  {
    forall l ensures l in LinksOf(s) <==> l in LinksOf(u) {
      LinksAreTheTargets(ts, s, l);
      LinksAreTheTargets(us, u, l);
    }
    LinksAreTheTargets(ts, s, Link(0, ReadOnly));
    LinksAreTheTargets(us, u, Link(0, ReadOnly));
    AscendingIsUnique(LinksOf(s), LinksOf(u));
  }
}
