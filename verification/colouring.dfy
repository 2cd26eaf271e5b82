/** Greedy interaction colouring (sample/coloring.cpp): constraints that share a particle get different
    bands, so one band's constraints can be relaxed in parallel. */
module Colouring {
  import opened Pipes
  import opened Walks
  import opened ColouredLoop
  import opened ColouredEntry

  datatype Constraint = Constraint(a: nat, b: nat)

  const MAX_COLORS := 32

  predicate Touches(c: Constraint, p: nat) {
    c.a == p || c.b == p
  }

  predicate Share(c: Constraint, d: Constraint) {
    Touches(c, d.a) || Touches(c, d.b)
  }

  predicate InRange(cs: seq<Constraint>, particles: nat) {
    forall k :: 0 <= k < |cs| ==> cs[k].a < particles && cs[k].b < particles
  }

  /** Colour `c` is used by a constraint before `n` that touches particle `p`. */
  ghost predicate Taken(cs: seq<Constraint>, colour: seq<nat>, n: nat, p: nat, c: nat)
    requires n <= |colour| <= |cs|
  {
    exists k :: 0 <= k < n && Touches(cs[k], p) && colour[k] == c
  }

  ghost predicate Blocked(cs: seq<Constraint>, colour: seq<nat>, n: nat, c: nat)
    requires n <= |colour| && n < |cs| && |colour| <= |cs|
  {
    Taken(cs, colour, n, cs[n].a, c) || Taken(cs, colour, n, cs[n].b, c)
  }

  /** Each constraint has the smallest colour no earlier neighbour has. */
  ghost predicate Greedy(cs: seq<Constraint>, colour: seq<nat>) {
    && |colour| <= |cs|
    && forall n :: 0 <= n < |colour| ==>
         !Blocked(cs, colour, n, colour[n]) && forall c: nat :: c < colour[n] ==> Blocked(cs, colour, n, c)
  }

  /** The band lists exactly the constraints of colour `b`, ascending. */
  predicate BandOf(band: seq<int>, colour: seq<nat>, b: int) {
    && (forall i :: 0 <= i < |band| ==> 0 <= band[i] < |colour| && colour[band[i]] == b)
    && (forall k :: 0 <= k < |colour| && colour[k] == b ==> k in band)
    && (forall i, j :: 0 <= i < j < |band| ==> band[i] < band[j])
  }

  /** One band a colour, and every band is used. */
  ghost predicate BandsOf(bands: seq<seq<int>>, colour: seq<nat>) {
    && (forall k :: 0 <= k < |colour| ==> colour[k] < |bands|)
    && (forall b :: 0 <= b < |bands| ==> BandOf(bands[b], colour, b) && bands[b] != [])
  }

  ghost predicate UsedBy(used: seq<set<nat>>, cs: seq<Constraint>, colour: seq<nat>)
    requires |colour| <= |cs|
  {
    forall p: nat, c: nat :: p < |used| ==> (c in used[p] <==> Taken(cs, colour, |colour|, p, c))
  }

  lemma TakenAfter(cs: seq<Constraint>, colour: seq<nat>, x: nat, p: nat, c: nat)
    requires |colour| < |cs|
    ensures Taken(cs, colour + [x], |colour| + 1, p, c) <==>
      Taken(cs, colour, |colour|, p, c) || (c == x && Touches(cs[|colour|], p))
  {
    var colour' := colour + [x];
    if Taken(cs, colour, |colour|, p, c) {
      var k :| 0 <= k < |colour| && Touches(cs[k], p) && colour[k] == c;
      assert colour'[k] == c;
    }
    if c == x && Touches(cs[|colour|], p) {
      assert colour'[|colour|] == c;
    }
  }

  lemma TakenPrefix(cs: seq<Constraint>, colour: seq<nat>, x: nat, n: nat, p: nat, c: nat)
    requires n <= |colour| < |cs|
    ensures Taken(cs, colour + [x], n, p, c) <==> Taken(cs, colour, n, p, c)
  {
    assert forall k :: 0 <= k < n ==> (colour + [x])[k] == colour[k];
  }

  lemma GreedyExtends(cs: seq<Constraint>, colour: seq<nat>, x: nat)
    requires Greedy(cs, colour) && |colour| < |cs|
    requires !Blocked(cs, colour, |colour|, x) && forall c: nat :: c < x ==> Blocked(cs, colour, |colour|, c)
    ensures Greedy(cs, colour + [x])
  {
    var colour' := colour + [x];
    forall n, c: nat | 0 <= n < |colour'| ensures Blocked(cs, colour', n, c) <==> Blocked(cs, colour, n, c) {
      TakenPrefix(cs, colour, x, n, cs[n].a, c);
      TakenPrefix(cs, colour, x, n, cs[n].b, c);
    }
    forall n | 0 <= n < |colour'|
      ensures !Blocked(cs, colour', n, colour'[n]) && forall c: nat :: c < colour'[n] ==> Blocked(cs, colour', n, c)
    {
      assert n < |colour| ==> colour'[n] == colour[n];
    }
  }

  /** A colour's place in the bands, the list grown if the colour is new. */
  function Place(bands: seq<seq<int>>, colour: nat, k: int): seq<seq<int>>
    requires colour <= |bands|
  {
    var grown := if colour >= |bands| then bands + [[]] else bands;
    grown[colour := grown[colour] + [k]]
  }

  lemma BandGrows(band: seq<int>, colour: seq<nat>, x: nat, b: int)
    requires BandOf(band, colour, b)
    ensures BandOf(if b == x then band + [|colour|] else band, colour + [x], b)
  {
    var band' := if b == x then band + [|colour|] else band;
    var colour' := colour + [x];
    forall k | 0 <= k < |colour'| && colour'[k] == b ensures k in band' {
      if k < |colour| {
        assert colour[k] == b;
      } else {
        assert band'[|band|] == k;
      }
    }
  }

  lemma PlaceKeepsBands(bands: seq<seq<int>>, colour: seq<nat>, x: nat)
    requires BandsOf(bands, colour) && x <= |bands|
    ensures BandsOf(Place(bands, x, |colour|), colour + [x])
  {
    var bands' := Place(bands, x, |colour|);
    var colour' := colour + [x];
    forall b | 0 <= b < |bands'| ensures BandOf(bands'[b], colour', b) && bands'[b] != [] {
      var before := if b < |bands| then bands[b] else [];
      assert BandOf(before, colour, b);
      assert bands'[b] == if b == x then before + [|colour|] else before;
      BandGrows(before, colour, x, b);
    }
  }

  /** The colours taken next to a constraint are all below the number of bands, so the smallest free
      colour is at most the next new band. */
  lemma SmallestIsNext(cs: seq<Constraint>, bands: seq<seq<int>>, colour: seq<nat>, x: nat)
    requires BandsOf(bands, colour) && |colour| < |cs|
    requires forall c: nat :: c < x ==> Blocked(cs, colour, |colour|, c)
    ensures x <= |bands|
  {
    if x > 0 {
      assert Blocked(cs, colour, |colour|, x - 1);
    }
  }

  /** No particle appears in two constraints of one band. */
  ghost predicate ValidColoring(bands: seq<seq<int>>, cs: seq<Constraint>)
    requires Indexes(bands, cs)
  {
    forall b, i, j :: 0 <= b < |bands| && 0 <= i < j < |bands[b]| ==> !Share(cs[bands[b][i]], cs[bands[b][j]])
  }

  predicate Indexes(bands: seq<seq<int>>, cs: seq<Constraint>) {
    forall b, i :: 0 <= b < |bands| && 0 <= i < |bands[b]| ==> 0 <= bands[b][i] < |cs|
  }

  predicate InBand(bands: seq<seq<int>>, k: int, b: int) {
    0 <= b < |bands| && k in bands[b]
  }

  ghost predicate InOneBand(bands: seq<seq<int>>, k: int) {
    exists b :: InBand(bands, k, b) && forall d :: InBand(bands, k, d) ==> d == b
  }

  lemma GreedyIsValid(cs: seq<Constraint>, bands: seq<seq<int>>, colour: seq<nat>)
    requires Greedy(cs, colour) && |colour| == |cs| && BandsOf(bands, colour)
    ensures Indexes(bands, cs) && ValidColoring(bands, cs)
    ensures forall k :: 0 <= k < |cs| ==> InBand(bands, k, colour[k])
    ensures forall k, b :: 0 <= k < |cs| && InBand(bands, k, b) ==> b == colour[k]
  {
    forall b, i | 0 <= b < |bands| && 0 <= i < |bands[b]| ensures 0 <= bands[b][i] < |cs| && colour[bands[b][i]] == b {
      assert BandOf(bands[b], colour, b);
    }
    forall b, i, j | 0 <= b < |bands| && 0 <= i < j < |bands[b]| ensures !Share(cs[bands[b][i]], cs[bands[b][j]]) {
      var x, y := bands[b][i], bands[b][j];
      assert BandOf(bands[b], colour, b);
      assert x < y && colour[x] == colour[y] == b;
      assert !Blocked(cs, colour, y, colour[y]);
      assert !Taken(cs, colour, y, cs[y].a, b) && !Taken(cs, colour, y, cs[y].b, b);
    }
    forall k | 0 <= k < |cs| ensures InBand(bands, k, colour[k]) {
      assert BandOf(bands[colour[k]], colour, colour[k]);
    }
  }

  /** The smallest colour not taken, or 32. */
  method FirstFree(taken: set<nat>) returns (color: nat)
    ensures color <= 32 && (color < 32 ==> color !in taken)
    ensures forall c: nat :: c < color ==> c in taken
  {
    color := 0;
    while color < MAX_COLORS && color in taken
      invariant color <= MAX_COLORS
      invariant forall c: nat :: c < color ==> c in taken
    {
      color := color + 1;
    }
  }

  /** Both endpoints of a constraint marked with its colour. */
  function Marked(used: seq<set<nat>>, c: Constraint, x: nat): seq<set<nat>>
    requires c.a < |used| && c.b < |used|
  {
    seq(|used|, p requires 0 <= p < |used| => if Touches(c, p) then used[p] + {x} else used[p])
  }

  lemma MarkKeepsUsed(used: seq<set<nat>>, cs: seq<Constraint>, colour: seq<nat>, x: nat)
    requires InRange(cs, |used|) && |colour| < |cs| && UsedBy(used, cs, colour)
    ensures UsedBy(Marked(used, cs[|colour|], x), cs, colour + [x])
  {
    var used' := Marked(used, cs[|colour|], x);
    forall p: nat, c: nat | p < |used'| ensures c in used'[p] <==> Taken(cs, colour + [x], |colour| + 1, p, c) {
      TakenAfter(cs, colour, x, p, c);
      assert c in used[p] <==> Taken(cs, colour, |colour|, p, c);
    }
  }

  lemma MarkIsTwoUpdates(used: seq<set<nat>>, c: Constraint, x: nat)
    requires c.a < |used| && c.b < |used|
    ensures var first := used[c.a := used[c.a] + {x}]; first[c.b := first[c.b] + {x}] == Marked(used, c, x)
  {
  }

  lemma TakenIsBlocked(used: seq<set<nat>>, cs: seq<Constraint>, colour: seq<nat>, c: nat)
    requires InRange(cs, |used|) && |colour| < |cs| && UsedBy(used, cs, colour)
    ensures c in used[cs[|colour|].a] + used[cs[|colour|].b] <==> Blocked(cs, colour, |colour|, c)
  {
  }

  /** What holds after the first `|colour|` constraints. */
  ghost predicate SoFar(used: seq<set<nat>>, cs: seq<Constraint>, bands: seq<seq<int>>, colour: seq<nat>) {
    && |colour| <= |cs| && InRange(cs, |used|)
    && Greedy(cs, colour) && BandsOf(bands, colour) && |bands| <= MAX_COLORS && UsedBy(used, cs, colour)
  }

  /** The colours next to the constraint at hand. */
  function TakenNext(used: seq<set<nat>>, c: Constraint): set<nat>
    requires c.a < |used| && c.b < |used|
  {
    used[c.a] + used[c.b]
  }

  /** One constraint gets the smallest free colour. */
  lemma ColourOne(used: seq<set<nat>>, cs: seq<Constraint>, bands: seq<seq<int>>, colour: seq<nat>, x: nat)
    requires SoFar(used, cs, bands, colour) && |colour| < |cs| && x < MAX_COLORS
    requires var taken := TakenNext(used, cs[|colour|]); x !in taken && forall c: nat :: c < x ==> c in taken
    ensures x <= |bands| && SoFar(Marked(used, cs[|colour|], x), cs, Place(bands, x, |colour|), colour + [x])
  {
    TakenIsBlocked(used, cs, colour, x);
    forall c: nat | c < x ensures Blocked(cs, colour, |colour|, c) {
      assert c in TakenNext(used, cs[|colour|]);
      TakenIsBlocked(used, cs, colour, c);
    }
    SmallestIsNext(cs, bands, colour, x);
    PlaceKeepsBands(bands, colour, x);
    GreedyExtends(cs, colour, x);
    MarkKeepsUsed(used, cs, colour, x);
  }

  /** Or it has all 32 taken. */
  lemma AllTaken(used: seq<set<nat>>, cs: seq<Constraint>, bands: seq<seq<int>>, colour: seq<nat>)
    requires SoFar(used, cs, bands, colour) && |colour| < |cs|
    requires forall c: nat :: c < MAX_COLORS ==> c in TakenNext(used, cs[|colour|])
    ensures OutOfColours(cs, colour)
  {
    forall c: nat | c < MAX_COLORS ensures Blocked(cs, colour, |colour|, c) {
      assert c in TakenNext(used, cs[|colour|]);
      TakenIsBlocked(used, cs, colour, c);
    }
  }

  /** The constraint after the coloured ones has all 32 colours taken. */
  ghost predicate OutOfColours(cs: seq<Constraint>, colour: seq<nat>) {
    |colour| < |cs| && forall c: nat :: c < 32 ==> Blocked(cs, colour, |colour|, c)
  }

  /** The loop over the constraints.  `used` are the source's bitmasks as sets of bit positions. */
  method GreedyPass(cs: seq<Constraint>, particles: nat) returns (ok: bool, bands: seq<seq<int>>, ghost colour: seq<nat>)
    requires InRange(cs, particles)
    ensures Greedy(cs, colour) && BandsOf(bands, colour) && |bands| <= MAX_COLORS
    ensures if ok then |colour| == |cs| else OutOfColours(cs, colour)
  {
    var used := new set<nat>[particles](_ => {});
    bands, colour := [], [];
    for ci := 0 to |cs|
      invariant |colour| == ci && SoFar(used[..], cs, bands, colour)
    {
      var a, b := cs[ci].a, cs[ci].b;
      ghost var before := used[..];
      var color := FirstFree(used[a] + used[b]);
      assert used[a] + used[b] == TakenNext(before, cs[ci]);
      if color >= MAX_COLORS {
        AllTaken(before, cs, bands, colour);
        ok := false;
        return;
      }
      ColourOne(before, cs, bands, colour, color);
      bands := Place(bands, color, ci);
      colour := colour + [color];
      MarkIsTwoUpdates(before, cs[ci], color);
      used[a] := used[a] + {color};
      used[b] := used[b] + {color};
      assert used[..] == Marked(before, cs[ci], color);
    }
    ok := true;
  }

  /** Greedy colouring; `None` is the fatal exit for a constraint with all 32 colours taken. */
  method ColorConstraints(cs: seq<Constraint>, particles: nat) returns (r: Option<seq<seq<int>>>, ghost colour: seq<nat>)
    requires InRange(cs, particles)
    ensures Greedy(cs, colour)
    ensures r.Some? ==> |colour| == |cs| && BandsOf(r.value, colour) && |r.value| <= 32
    ensures r.Some? ==> Indexes(r.value, cs) && ValidColoring(r.value, cs)
    ensures r.Some? ==> forall k :: 0 <= k < |cs| ==> InOneBand(r.value, k)
    ensures r.None? ==> OutOfColours(cs, colour)
    ensures (forall p: nat :: Degree(cs, p) <= 16) ==> r.Some?
  {
    var ok, bands;
    ok, bands, colour := GreedyPass(cs, particles);
    if !ok {
      if forall p: nat :: Degree(cs, p) <= 16 {
        FewColours(cs, bands, colour, 16);
      }
      return None, colour;
    }
    GreedyIsValid(cs, bands, colour);
    forall k | 0 <= k < |cs| ensures InOneBand(bands, k) {
      assert InBand(bands, k, colour[k]);
    }
    r := Some(bands);
  }

  // ---- what the colouring is for ----------------------------------------------------------------------

  /** No two constraints of the band's first `n` share a particle. */
  ghost predicate Apart(band: seq<int>, cs: seq<Constraint>, n: nat)
    requires n <= |band| && forall i :: 0 <= i < |band| ==> 0 <= band[i] < |cs|
  {
    forall i, j :: 0 <= i < j < n ==> !Share(cs[band[i]], cs[band[j]])
  }

  ghost predicate TouchedBy(band: seq<int>, cs: seq<Constraint>, n: nat, p: nat)
    requires n <= |band| && forall i :: 0 <= i < |band| ==> 0 <= band[i] < |cs|
  {
    exists i :: 0 <= i < n && Touches(cs[band[i]], p)
  }

  lemma TouchedNext(band: seq<int>, cs: seq<Constraint>, n: nat, p: nat)
    requires n < |band| && forall i :: 0 <= i < |band| ==> 0 <= band[i] < |cs|
    ensures TouchedBy(band, cs, n + 1, p) <==> TouchedBy(band, cs, n, p) || Touches(cs[band[n]], p)
  {
    if i :| 0 <= i < n + 1 && Touches(cs[band[i]], p) {
      assert i < n ==> TouchedBy(band, cs, n, p);
    }
  }

  lemma SeenTwice(band: seq<int>, cs: seq<Constraint>, n: nat, p: nat)
    requires n < |band| && forall i :: 0 <= i < |band| ==> 0 <= band[i] < |cs|
    requires TouchedBy(band, cs, n, p) && Touches(cs[band[n]], p)
    ensures !Apart(band, cs, |band|)
  {
    var i :| 0 <= i < n && Touches(cs[band[i]], p);
    assert Share(cs[band[i]], cs[band[n]]);
  }

  lemma ApartNext(band: seq<int>, cs: seq<Constraint>, n: nat)
    requires n < |band| && forall i :: 0 <= i < |band| ==> 0 <= band[i] < |cs|
    requires Apart(band, cs, n) && !TouchedBy(band, cs, n, cs[band[n]].a) && !TouchedBy(band, cs, n, cs[band[n]].b)
    ensures Apart(band, cs, n + 1)
  {
  }

  /** One band of the check; `lastBand` remembers the last band each particle was seen in. */
  method ScanBand(band: seq<int>, cs: seq<Constraint>, lastBand: array<int>, b: int) returns (ok: bool)
    requires InRange(cs, lastBand.Length) && forall i :: 0 <= i < |band| ==> 0 <= band[i] < |cs|
    requires forall p :: 0 <= p < lastBand.Length ==> lastBand[p] < b
    modifies lastBand
    ensures ok <==> Apart(band, cs, |band|)
    ensures forall p :: 0 <= p < lastBand.Length ==> lastBand[p] <= b
  {
    for n := 0 to |band|
      invariant forall p :: 0 <= p < lastBand.Length ==> lastBand[p] <= b
      invariant forall p: nat :: p < lastBand.Length ==> (lastBand[p] == b <==> TouchedBy(band, cs, n, p))
      invariant Apart(band, cs, n)
    {
      var c := cs[band[n]];
      if lastBand[c.a] == b || lastBand[c.b] == b {
        SeenTwice(band, cs, n, if lastBand[c.a] == b then c.a else c.b);
        return false;
      }
      ApartNext(band, cs, n);
      forall p: nat | p < lastBand.Length
        ensures TouchedBy(band, cs, n + 1, p) <==> lastBand[p] == b || Touches(c, p)
      {
        TouchedNext(band, cs, n, p);
      }
      lastBand[c.a] := b;
      lastBand[c.b] := b;
    }
    return true;
  }

  /** The check run once on the result: exact, whatever the bands. */
  method ColoringIsValid(bands: seq<seq<int>>, cs: seq<Constraint>, particles: nat) returns (ok: bool)
    requires InRange(cs, particles) && Indexes(bands, cs)
    ensures ok <==> ValidColoring(bands, cs)
  {
    var lastBand := new int[particles](_ => -1);
    for b := 0 to |bands|
      invariant forall p :: 0 <= p < particles ==> lastBand[p] < b
      invariant forall d :: 0 <= d < b ==> Apart(bands[d], cs, |bands[d]|)
    {
      var fine := ScanBand(bands[b], cs, lastBand, b);
      if !fine {
        assert !Apart(bands[b], cs, |bands[b]|);
        return false;
      }
    }
    forall d, i, j | 0 <= d < |bands| && 0 <= i < j < |bands[d]| ensures !Share(cs[bands[d][i]], cs[bands[d][j]]) {
      assert Apart(bands[d], cs, |bands[d]|);
    }
    return true;
  }

  // ---- how many colours ----------------------------------------------------------------------------------

  ghost function TouchingBefore(cs: seq<Constraint>, n: nat, p: nat): set<int>
    requires n <= |cs|
  {
    set k | k in Below(n) && Touches(cs[k], p)
  }

  ghost function Degree(cs: seq<Constraint>, p: nat): nat {
    |TouchingBefore(cs, |cs|, p)|
  }

  /** The colours `0 .. x-1`, each worn by a member of `s`, are no more than `s` has members. */
  lemma {:induction false} ColoursOf(s: set<int>, colour: seq<nat>, x: nat)
    requires forall k :: k in s ==> 0 <= k < |colour|
    requires forall c: nat :: c < x ==> Wears(s, colour, c)
    ensures x <= |s|
    decreases x
  {
    if x > 0 {
      assert Wears(s, colour, x - 1);
      var k :| k in s && colour[k] == x - 1;
      forall c: nat | c < x - 1 ensures Wears(s - {k}, colour, c) {
        assert Wears(s, colour, c);
        var j :| j in s && colour[j] == c;
        assert j in s - {k};
      }
      ColoursOf(s - {k}, colour, x - 1);
    }
  }

  ghost predicate Wears(s: set<int>, colour: seq<nat>, c: nat)
    requires forall k :: k in s ==> 0 <= k < |colour|
  {
    exists k :: k in s && colour[k] == c
  }

  /** If each particle has at most `delta` constraints, a constraint has at most `2 * (delta - 1)`
      neighbours before it, so some colour that small is free. */
  lemma BlockedColoursAreFew(cs: seq<Constraint>, colour: seq<nat>, n: nat, x: nat, delta: nat)
    requires n <= |colour| <= |cs| && n < |cs|
    requires forall p: nat :: Degree(cs, p) <= delta
    requires forall c: nat :: c < x ==> Blocked(cs, colour, n, c)
    ensures delta >= 1 && x <= 2 * (delta - 1)
  {
    var a, b := cs[n].a, cs[n].b;
    var sa, sb := TouchingBefore(cs, n, a), TouchingBefore(cs, n, b);
    NeighboursBefore(cs, n, a);
    NeighboursBefore(cs, n, b);
    var s := sa + sb;
    forall c: nat | c < x ensures Wears(s, colour, c) {
      assert Blocked(cs, colour, n, c);
      var p := if Taken(cs, colour, n, a, c) then a else b;
      var k :| 0 <= k < n && Touches(cs[k], p) && colour[k] == c;
      assert k in TouchingBefore(cs, n, p);
    }
    ColoursOf(s, colour, x);
    assert |s| <= |sa| + |sb|;
    assert Degree(cs, a) <= delta && Degree(cs, b) <= delta;
  }

  lemma NeighboursBefore(cs: seq<Constraint>, n: nat, p: nat)
    requires n < |cs| && Touches(cs[n], p)
    ensures |TouchingBefore(cs, n, p)| < Degree(cs, p)
  {
    var all, before := TouchingBefore(cs, |cs|, p), TouchingBefore(cs, n, p);
    assert n in all && n !in before;
    assert before <= all - {n};
    SubsetSize(before, all - {n});
  }

  lemma SubsetSize(s: set<int>, t: set<int>)
    requires s <= t
    ensures |s| <= |t|
  {
    assert t == s + (t - s);
    assert |t| == |s| + |t - s|;
  }

  /** With at most `delta` constraints per particle the greedy pass uses at most `2 * delta - 1` bands,
      and for `delta <= 16` it never runs out of the 32 colours. */
  lemma FewColours(cs: seq<Constraint>, bands: seq<seq<int>>, colour: seq<nat>, delta: nat)
    requires Greedy(cs, colour)
    requires forall p: nat :: Degree(cs, p) <= delta
    ensures |colour| == |cs| && cs != [] && BandsOf(bands, colour) ==> |bands| <= 2 * delta - 1
    ensures delta <= 16 ==> !OutOfColours(cs, colour)
  {
    if OutOfColours(cs, colour) {
      BlockedColoursAreFew(cs, colour, |colour|, MAX_COLORS, delta);
    }
    if |colour| == |cs| && cs != [] && BandsOf(bands, colour) {
      var b := |bands| - 1;
      assert colour[0] < |bands|;
      assert BandOf(bands[b], colour, b);
      var k := bands[b][0];
      assert colour[k] == b && !Blocked(cs, colour, k, colour[k]);
      BlockedColoursAreFew(cs, colour, k, b, delta);
    }
  }

  // ---- together with the coloured loop ---------------------------------------------------------------------

  /** The problem that relaxes every constraint of every band: a constraint's body touches its two
      particles only. */
  ghost predicate Relaxes(pr: Problem, cs: seq<Constraint>, bands: seq<seq<int>>) {
    && pr.bands == bands && Indexes(bands, cs)
    && forall k :: 0 <= k < |cs| ==> pr.footprint(k) == {cs[k].a as int, cs[k].b as int}
  }

  /** End to end: relaxing the constraints band by band in parallel, on bands made by the greedy
      colouring, ends in the sequential result under every interleaving. */
  lemma RelaxationIsDeterministic(pr: Problem, cs: seq<Constraint>, colour: seq<nat>, executors: nat, mem0: Memory,
                                  states: seq<State>, labels: seq<ColouredLoop.Label>, t: nat)
    requires Greedy(cs, colour) && |colour| == |cs| && BandsOf(pr.bands, colour) && Relaxes(pr, cs, pr.bands)
    requires IsRun(pr, executors, mem0, states, labels) && t < |states|
    ensures states[t].completes == 1 ==> states[t].mem == RunRounds(pr, pr.bands, pr.rounds, mem0)
  {
    GreedyIsValid(cs, pr.bands, colour);
    forall b, j, k | 0 <= b < |pr.bands| && 0 <= j < |pr.bands[b]| && 0 <= k < |pr.bands[b]| && j != k
      ensures pr.footprint(pr.bands[b][j]) !! pr.footprint(pr.bands[b][k])
    {
      var lo, hi := if j < k then j else k, if j < k then k else j;
      assert !Share(cs[pr.bands[b][lo]], cs[pr.bands[b][hi]]);
    }
    assert Coloured(pr);
    EndsLikeTheSequentialLoop(pr, executors, mem0, states, labels, t);
    PhasesAreThePlainLoop(pr, mem0);
  }
}
