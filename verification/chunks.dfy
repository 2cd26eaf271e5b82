/** Claimed ranges and counts over the items of a loop, shared by the two parallel loops. */
module Chunks {

  /** The items with `start .. stop` replaced by `x`. */
  function Fill<T>(items: seq<T>, start: nat, stop: nat, x: T): seq<T> {
    seq(|items|, k requires 0 <= k < |items| => if start <= k < stop then x else items[k])
  }

  function Count<T>(items: seq<T>, p: T -> bool): nat {
    if items == [] then 0 else Count(items[..|items| - 1], p) + (if p(items[|items| - 1]) then 1 else 0)
  }

  lemma {:induction false} CountUpdate<T>(items: seq<T>, p: T -> bool, i: nat, x: T)
    requires i < |items|
    ensures Count(items[i := x], p) + (if p(items[i]) then 1 else 0) == Count(items, p) + (if p(x) then 1 else 0)
    decreases |items|
  {
    var n := |items| - 1;
    if i == n {
      assert items[i := x][..n] == items[..n];
    } else {
      assert items[i := x][..n] == items[..n][i := x];
      CountUpdate(items[..n], p, i, x);
    }
  }

  lemma FillPrefix<T>(items: seq<T>, start: nat, stop: nat, x: T)
    requires start <= stop <= |items| && items != []
    ensures var n := |items| - 1; var stop' := if stop > n then n else stop; var start' := if start > stop' then stop' else start;
      Fill(items, start, stop, x)[..n] == Fill(items[..n], start', stop', x)
  {
    var n := |items| - 1;
    var stop' := if stop > n then n else stop;
    var start' := if start > stop' then stop' else start;
    var u, w := Fill(items, start, stop, x)[..n], Fill(items[..n], start', stop', x);
    assert |u| == n && |w| == n;
    forall k | 0 <= k < n ensures u[k] == w[k] {
      assert items[..n][k] == items[k];
    }
  }

  lemma {:induction false} CountFill<T>(items: seq<T>, p: T -> bool, start: nat, stop: nat, x: T)
    requires start <= stop <= |items| && forall k :: start <= k < stop ==> !p(items[k])
    ensures Count(Fill(items, start, stop, x), p) == Count(items, p) + (if p(x) then stop - start else 0)
    decreases |items|
  {
    if items != [] {
      var n := |items| - 1;
      var stop' := if stop > n then n else stop;
      var start' := if start > stop' then stop' else start;
      FillPrefix(items, start, stop, x);
      CountFill(items[..n], p, start', stop', x);
    }
  }

  lemma {:induction false} CountBounds<T>(items: seq<T>, p: T -> bool)
    ensures Count(items, p) <= |items|
    ensures Count(items, p) == |items| <==> forall k :: 0 <= k < |items| ==> p(items[k])
    ensures Count(items, p) == 0 <==> forall k :: 0 <= k < |items| ==> !p(items[k])
    decreases |items|
  {
    if items != [] {
      CountBounds(items[..|items| - 1], p);
      assert forall k :: 0 <= k < |items| - 1 ==> items[..|items| - 1][k] == items[k];
    }
  }

  /** What each executor still has to do, added up. */
  function Sum<T>(items: seq<T>, f: T -> nat): nat {
    if items == [] then 0 else Sum(items[..|items| - 1], f) + f(items[|items| - 1])
  }

  lemma {:induction false} SumUpdate<T>(items: seq<T>, f: T -> nat, i: nat, x: T)
    requires i < |items|
    ensures Sum(items[i := x], f) + f(items[i]) == Sum(items, f) + f(x)
    decreases |items|
  {
    var n := |items| - 1;
    if i == n {
      assert items[i := x][..n] == items[..n];
    } else {
      assert items[i := x][..n] == items[..n][i := x];
      SumUpdate(items[..n], f, i, x);
    }
  }

  /** If each summand grows by at most `d`, the sum grows by at most `d` for each. */
  lemma {:induction false} SumGrows<T>(items: seq<T>, f: T -> nat, g: T -> nat, d: nat)
    requires forall k :: 0 <= k < |items| ==> g(items[k]) <= f(items[k]) + d
    ensures Sum(items, g) <= Sum(items, f) + d * |items|
    decreases |items|
  {
    if items != [] {
      var n := |items| - 1;
      SumGrows(items[..n], f, g, d);
      assert d * |items| == d * n + d;
    }
  }
}
