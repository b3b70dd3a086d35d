/** The upper concave hull of one layer's cumulative hit curve, in exact arithmetic. A hull
    is the list of its knots; a knot is a slot count. */
module ConcaveHull {
  import opened Arithmetic

  /** n slots at a rate each: rate * n, written as a sum. */
  function Worth(rate: real, n: nat): real {
    if n == 0 then 0.0 else Worth(rate, n - 1) + rate
  }

  function Slope(V: seq<real>, a: nat, b: nat): real
    requires a < b < |V|
  {
    (V[b] - V[a]) / (b - a) as real
  }

  /** The straight line through the curve at a and b, right of a. */
  function Line(V: seq<real>, a: nat, b: nat, x: nat): real
    requires a < b < |V| && a <= x
  {
    V[a] + Worth(Slope(V, a, b), x - a)
  }

  /** Between a and b the curve stays below its chord. */
  predicate Covers(V: seq<real>, a: nat, b: nat) {
    a < b < |V| && forall x :: a <= x <= b ==> V[x] <= Line(V, a, b, x)
  }

  /** Knots from 0 up. */
  predicate Knots(V: seq<real>, hull: seq<nat>) {
    |hull| >= 1 && hull[|hull| - 1] < |V| &&
    var m := |hull| - 1;
    if m == 0 then hull[0] == 0 else Knots(V, hull[..m]) && hull[m - 1] < hull[m]
  }

  /** The chords cover the curve. */
  predicate Covered(V: seq<real>, hull: seq<nat>)
    requires Knots(V, hull)
  {
    var m := |hull| - 1;
    m > 0 ==> Covered(V, hull[..m]) && Covers(V, hull[m - 1], hull[m])
  }

  /** The chords get strictly less steep. */
  predicate Falling(V: seq<real>, hull: seq<nat>)
    requires Knots(V, hull)
  {
    var m := |hull| - 1;
    m > 0 ==> Falling(V, hull[..m]) && (m >= 2 ==> Falls(V, hull[m - 2], hull[m - 1], hull[m]))
  }

  predicate Hull(V: seq<real>, hull: seq<nat>) {
    Knots(V, hull) && Covered(V, hull) && Falling(V, hull)
  }

  predicate Falls(V: seq<real>, a: nat, b: nat, c: nat) {
    a < b < c < |V| && Slope(V, a, b) > Slope(V, b, c)
  }

  function Last(hull: seq<nat>): nat
    requires |hull| >= 1
  {
    hull[|hull| - 1]
  }

  /** The hull's height at x. */
  function HullAt(V: seq<real>, hull: seq<nat>, x: nat): real
    requires Knots(V, hull) && x <= Last(hull)
  {
    var m := |hull| - 1;
    if m == 0 then V[0]
    else if x >= hull[m - 1] then Line(V, hull[m - 1], hull[m], x)
    else HullAt(V, hull[..m], x)
  }

  // ---------------------------------------------------------------------------
  // Chords
  // ---------------------------------------------------------------------------

  lemma {:induction false} WorthIs(rate: real, n: nat)
    ensures Worth(rate, n) == rate * n as real
  {
    if n > 0 {
      WorthIs(rate, n - 1);
      Split(rate, (n - 1) as real, 1.0, n as real);
    }
  }

  lemma {:induction false} WorthSplit(rate: real, a: nat, b: nat)
    ensures Worth(rate, a + b) == Worth(rate, a) + Worth(rate, b)
  {
    if b > 0 { WorthSplit(rate, a, b - 1); }
  }

  lemma {:induction false} WorthSum(p: real, q: real, n: nat)
    ensures Worth(p + q, n) == Worth(p, n) + Worth(q, n)
  {
    if n > 0 { WorthSum(p, q, n - 1); }
  }

  lemma {:induction false} WorthMono(p: real, q: real, n: nat)
    requires p <= q
    ensures Worth(p, n) <= Worth(q, n)
  {
    if n > 0 { WorthMono(p, q, n - 1); }
  }

  lemma {:induction false} WorthMore(p: real, m: nat, n: nat)
    requires p >= 0.0 && m <= n
    ensures 0.0 <= Worth(p, m) <= Worth(p, n)
  {
    if m < n { WorthMore(p, m, n - 1); } else if n > 0 { WorthMore(p, n - 1, n - 1); }
  }

  /** The slope, over the width, makes up the difference. */
  lemma {:induction false} SlopeWorth(V: seq<real>, a: nat, b: nat)
    requires a < b < |V|
    ensures Worth(Slope(V, a, b), b - a) == V[b] - V[a]
  {
    WorthIs(Slope(V, a, b), b - a);
    Quotient(V[b] - V[a], (b - a) as real);
  }

  lemma {:induction false} LineEnds(V: seq<real>, a: nat, b: nat)
    requires a < b < |V|
    ensures Line(V, a, b, a) == V[a] && Line(V, a, b, b) == V[b]
  {
    SlopeWorth(V, a, b);
  }

  /** The line measured from its right end. */
  lemma {:induction false} LineFromRight(V: seq<real>, a: nat, b: nat, x: nat)
    requires a < b < |V| && a <= x <= b
    ensures Line(V, a, b, x) == V[b] - Worth(Slope(V, a, b), b - x)
  {
    SlopeWorth(V, a, b);
    WorthSplit(Slope(V, a, b), x - a, b - x);
  }

  lemma {:induction false} Split(s: real, p: real, q: real, d: real)
    requires p + q == d
    ensures s * p + s * q == s * d
  {
  }

  lemma {:induction false} WorthStrict(p: real, q: real, n: nat)
    requires p < q && n > 0
    ensures Worth(p, n) < Worth(q, n)
  {
    if n > 1 { WorthStrict(p, q, n - 1); }
  }

  /** Where the slope does not fall, the long chord's slope lies between. */
  lemma {:induction false} SlopeBetween(V: seq<real>, a: nat, b: nat, c: nat)
    requires a < b < c < |V| && Slope(V, b, c) >= Slope(V, a, b)
    ensures Slope(V, a, b) <= Slope(V, a, c) <= Slope(V, b, c)
  {
    SlopeWorth(V, a, b);
    SlopeWorth(V, b, c);
    SlopeWorth(V, a, c);
    Average(Slope(V, a, b), Slope(V, b, c), Slope(V, a, c), b - a, c - b);
  }

  lemma {:induction false} Average(s: real, t: real, u: real, p: nat, q: nat)
    requires p > 0 && q > 0 && s <= t && Worth(u, p + q) == Worth(s, p) + Worth(t, q)
    ensures s <= u <= t
  {
    WorthSplit(u, p, q);
    if u < s {
      WorthStrict(u, s, p);
      WorthMono(u, t, q);
    } else if u > t {
      WorthMono(s, u, p);
      WorthStrict(t, u, q);
    }
  }

  /** Dropping a knot whose slope does not fall keeps the curve covered. */
  lemma {:induction false} CoversJoin(V: seq<real>, a: nat, b: nat, c: nat)
    requires Covers(V, a, b) && Covers(V, b, c) && Slope(V, b, c) >= Slope(V, a, b)
    ensures Covers(V, a, c)
  {
    SlopeBetween(V, a, b, c);
    forall x | a <= x <= c ensures V[x] <= Line(V, a, c, x) {
      if x <= b {
        WorthMono(Slope(V, a, b), Slope(V, a, c), x - a);
      } else {
        LineFromRight(V, b, c, x);
        LineFromRight(V, a, c, x);
        WorthMono(Slope(V, a, c), Slope(V, b, c), c - x);
      }
    }
  }

  /** The neighbour is always covered. */
  lemma {:induction false} CoversNext(V: seq<real>, c: nat)
    requires 1 <= c < |V|
    ensures Covers(V, c - 1, c)
  {
    LineEnds(V, c - 1, c);
  }

  // ---------------------------------------------------------------------------
  // Monotone chain
  // ---------------------------------------------------------------------------

  /** Drop knots from the end until the slope to c falls. */
  method PopKnots(V: seq<real>, hull: seq<nat>, c: nat) returns (kept: seq<nat>)
    requires Hull(V, hull) && Covers(V, Last(hull), c)
    ensures Hull(V, kept) && Covers(V, Last(kept), c)
    ensures |kept| >= 2 ==> Falls(V, kept[|kept| - 2], kept[|kept| - 1], c)
  {
    kept := hull;
    while |kept| >= 2
      invariant Hull(V, kept) && Covers(V, Last(kept), c)
      decreases |kept|
    {
      var a, b := kept[|kept| - 2], kept[|kept| - 1];
      if Slope(V, b, c) < Slope(V, a, b) { return; }
      CoversJoin(V, a, b, c);
      kept := kept[..|kept| - 1];
    }
  }

  method BuildHull(V: seq<real>) returns (hull: seq<nat>)
    requires |V| >= 1
    ensures Hull(V, hull) && Last(hull) == |V| - 1
  {
    hull := [0];
    var c := 1;
    while c < |V|
      invariant 1 <= c <= |V| && Hull(V, hull) && Last(hull) == c - 1
    {
      CoversNext(V, c);
      var kept := PopKnots(V, hull, c);
      hull := kept + [c];
      assert hull[..|kept|] == kept;
      c := c + 1;
    }
  }

  // ---------------------------------------------------------------------------
  // What a hull is
  // ---------------------------------------------------------------------------

  lemma {:induction false} HullEnds(V: seq<real>, hull: seq<nat>)
    requires Knots(V, hull)
    ensures HullAt(V, hull, Last(hull)) == V[Last(hull)]
  {
    if |hull| > 1 { LineEnds(V, hull[|hull| - 2], hull[|hull| - 1]); }
  }

  /** The hull is nowhere below the curve. */
  lemma {:induction false} Majorant(V: seq<real>, hull: seq<nat>, x: nat)
    requires Knots(V, hull) && Covered(V, hull) && x <= Last(hull)
    ensures V[x] <= HullAt(V, hull, x)
  {
    var m := |hull| - 1;
    if m > 0 && x < hull[m - 1] { Majorant(V, hull[..m], x); }
  }

  /** A curve whose increments never grow. */
  predicate Concave(W: seq<real>) {
    forall i :: 1 <= i < |W| - 1 ==> W[i + 1] - W[i] <= W[i] - W[i - 1]
  }

  lemma {:induction false} IncrementsFall(W: seq<real>, i: nat, j: nat)
    requires Concave(W) && 1 <= i <= j < |W|
    ensures W[j] - W[j - 1] <= W[i] - W[i - 1]
    decreases j - i
  {
    if i < j { IncrementsFall(W, i, j - 1); }
  }

  /** The hull itself is concave. */
  lemma {:induction false} HullConcave(V: seq<real>, hull: seq<nat>, x: nat)
    requires Knots(V, hull) && Falling(V, hull) && 1 <= x < Last(hull)
    ensures HullAt(V, hull, x + 1) - HullAt(V, hull, x) <= HullAt(V, hull, x) - HullAt(V, hull, x - 1)
  {
    var m := |hull| - 1;
    if x + 1 <= hull[m - 1] {
      HullConcave(V, hull[..m], x);
      HullBefore(V, hull, x - 1);
      HullBefore(V, hull, x);
      HullBefore(V, hull, x + 1);
    } else {
      LineStep(V, hull[m - 1], hull[m], x);
      if x == hull[m - 1] {
        LineEnds(V, hull[m - 1], hull[m]);
        LineEnds(V, hull[m - 2], hull[m - 1]);
        LineStep(V, hull[m - 2], hull[m - 1], x - 1);
        HullBefore(V, hull, x - 1);
      } else {
        LineStep(V, hull[m - 1], hull[m], x - 1);
      }
    }
  }

  lemma {:induction false} LineStep(V: seq<real>, a: nat, b: nat, x: nat)
    requires a < b < |V| && a <= x
    ensures Line(V, a, b, x + 1) - Line(V, a, b, x) == Slope(V, a, b)
  {
  }

  /** Up to the last knot but one, the last knot does not matter. */
  lemma {:induction false} HullBefore(V: seq<real>, hull: seq<nat>, x: nat)
    requires Knots(V, hull) && |hull| >= 2 && x <= hull[|hull| - 2]
    ensures HullAt(V, hull, x) == HullAt(V, hull[..|hull| - 1], x)
  {
    var m := |hull| - 1;
    if x == hull[m - 1] {
      LineEnds(V, hull[m - 1], hull[m]);
      HullEnds(V, hull[..m]);
    }
  }

  /** On the left part of a concave curve the increments are at least the later one. */
  lemma {:induction false} RiseAtLeast(W: seq<real>, a: nat, x: nat, k: nat)
    requires Concave(W) && a <= x <= k < |W| && 1 <= k
    ensures W[x] - W[a] >= Worth(W[k] - W[k - 1], x - a)
    decreases x - a
  {
    if a < x {
      RiseAtLeast(W, a, x - 1, k);
      IncrementsFall(W, x, k);
    }
  }

  lemma {:induction false} RiseAtMost(W: seq<real>, x: nat, b: nat, k: nat)
    requires Concave(W) && 1 <= k <= x + 1 && x <= b < |W| && k < |W|
    ensures W[b] - W[x] <= Worth(W[k] - W[k - 1], b - x)
    decreases b - x
  {
    if x < b {
      RiseAtMost(W, x + 1, b, k);
      IncrementsFall(W, k, x + 1);
    }
  }

  /** A concave curve lies above its chords. */
  lemma {:induction false} AboveChord(V: seq<real>, W: seq<real>, a: nat, b: nat, x: nat)
    requires a < b < |V| == |W| && a <= x <= b && Concave(W) && W[a] >= V[a] && W[b] >= V[b]
    ensures W[x] >= Line(V, a, b, x)
  {
    LineEnds(V, a, b);
    if a < x < b {
      var d := W[x] - W[x - 1];
      RiseAtLeast(W, a, x, x);
      RiseAtMost(W, x, b, x);
      LineFromRight(V, a, b, x);
      if d >= Slope(V, a, b) {
        WorthMono(Slope(V, a, b), d, x - a);
      } else {
        WorthMono(d, Slope(V, a, b), b - x);
      }
    }
  }

  /** The hull is below every concave curve that is nowhere below V: it is the least one. */
  lemma {:induction false} LeastMajorant(V: seq<real>, hull: seq<nat>, W: seq<real>, x: nat)
    requires Knots(V, hull) && x <= Last(hull) && |W| == |V| && Concave(W)
    requires forall i :: 0 <= i < |V| ==> W[i] >= V[i]
    ensures HullAt(V, hull, x) <= W[x]
  {
    var m := |hull| - 1;
    if m > 0 {
      if x >= hull[m - 1] {
        AboveChord(V, W, hull[m - 1], hull[m], x);
      } else {
        LeastMajorant(V, hull[..m], W, x);
      }
    }
  }
}
