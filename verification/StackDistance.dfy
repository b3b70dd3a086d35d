/** Recency stacks: the reference against which both the one-pass reuse-distance recorder and
    the naive LRU simulator are proved. */
module StackDistance {
  import opened Seqs

  /** One access: an expert of a layer. */
  datatype Access = Access(l: nat, e: nat)

  /** Most recent first: e moves to the front. */
  function Touch(stack: seq<nat>, e: nat): seq<nat> {
    [e] + Erase(stack, e)
  }

  /** The experts of layer l seen so far, most recent first. */
  function Stack(acc: seq<Access>, l: nat): seq<nat> {
    if |acc| == 0 then []
    else
      var s := Stack(acc[..|acc| - 1], l);
      var a := acc[|acc| - 1];
      if a.l == l then Touch(s, a.e) else s
  }

  /** Stack distance of the next access: experts of its layer touched since its last use;
      None for a first use. */
  function Distance(acc: seq<Access>, a: Access): Option<nat> {
    var s := Stack(acc, a.l);
    if a.e in s then Some(Find(s, a.e)) else None
  }

  predicate HitAt(acc: seq<Access>, a: Access, slots: nat) {
    var d := Distance(acc, a);
    d.Some? && d.value < slots
  }

  /** Hits of LRU with this many slots per layer. */
  function Hits(acc: seq<Access>, slots: nat): (h: nat)
    ensures h <= |acc|
  {
    if |acc| == 0 then 0
    else
      var k := |acc| - 1;
      Hits(acc[..k], slots) + (if HitAt(acc[..k], acc[k], slots) then 1 else 0)
  }

  /** Accesses at stack distance r. */
  function AtDistance(acc: seq<Access>, r: nat): nat {
    if |acc| == 0 then 0
    else
      var k := |acc| - 1;
      AtDistance(acc[..k], r) + (if Distance(acc[..k], acc[k]) == Some(r) then 1 else 0)
  }

  /** First uses. */
  function Cold(acc: seq<Access>): nat {
    if |acc| == 0 then 0
    else
      var k := |acc| - 1;
      Cold(acc[..k]) + (if Distance(acc[..k], acc[k]) == None then 1 else 0)
  }

  /** The accesses of one layer. */
  function OfLayer(acc: seq<Access>, l: nat): (r: seq<Access>)
    ensures |r| <= |acc|
  {
    if |acc| == 0 then []
    else
      var r := OfLayer(acc[..|acc| - 1], l);
      if acc[|acc| - 1].l == l then r + [acc[|acc| - 1]] else r
  }

  // ---------------------------------------------------------------------------
  // Stacks
  // ---------------------------------------------------------------------------

  lemma {:induction false} StackNoDup(acc: seq<Access>, l: nat)
    ensures NoDup(Stack(acc, l))
  {
    if |acc| > 0 {
      StackNoDup(acc[..|acc| - 1], l);
      EraseNoDup(Stack(acc[..|acc| - 1], l), acc[|acc| - 1].e);
    }
  }

  /** Only accesses of layer l matter to its stack. */
  lemma {:induction false} StackOfLayer(acc: seq<Access>, l: nat)
    ensures Stack(OfLayer(acc, l), l) == Stack(acc, l)
  {
    if |acc| > 0 {
      var k := |acc| - 1;
      StackOfLayer(acc[..k], l);
      var r := OfLayer(acc[..k], l);
      if acc[k].l == l { assert (r + [acc[k]])[..|r|] == r; }
    }
  }

  /** Every stack position is below the number of experts. */
  lemma {:induction false} StackBelow(acc: seq<Access>, l: nat, n: nat)
    requires forall i :: 0 <= i < |acc| ==> acc[i].e < n
    ensures forall e :: e in Stack(acc, l) ==> e < n
    ensures |Stack(acc, l)| <= n
  {
    if |acc| > 0 {
      StackBelow(acc[..|acc| - 1], l, n);
      EraseMembers(Stack(acc[..|acc| - 1], l), acc[|acc| - 1].e);
    }
    StackNoDup(acc, l);
    BoundedNoDup(Stack(acc, l), n);
  }

  lemma EraseMembers(q: seq<nat>, x: nat)
    ensures forall y :: y in Erase(q, x) ==> y in q
  {
  }

  // ---------------------------------------------------------------------------
  // Mattson: one histogram gives every slot count
  // ---------------------------------------------------------------------------

  /** The histogram of distances below n. */
  function Histogram(acc: seq<Access>, n: nat): (h: seq<nat>)
    ensures |h| == n
  {
    seq(n, r requires 0 <= r < n => AtDistance(acc, r))
  }

  lemma {:induction false} SumStep(acc: seq<Access>, k: nat, n: nat)
    requires k < |acc|
    ensures Sum(Histogram(acc[..k + 1], n)) ==
            Sum(Histogram(acc[..k], n)) + (if HitAt(acc[..k], acc[k], n) then 1 else 0)
  {
    var a, b := Histogram(acc[..k], n), Histogram(acc[..k + 1], n);
    assert acc[..k + 1][..k] == acc[..k];
    var d := Distance(acc[..k], acc[k]);
    if d.Some? && d.value < n {
      assert b == a[d.value := a[d.value] + 1];
      SumUpdate(a, d.value, a[d.value] + 1);
    } else {
      assert b == a;
    }
  }

  /** The stack theorem: for every slot count, the histogram below it counts the LRU hits. */
  lemma {:induction false} HistogramIsHits(acc: seq<Access>, slots: nat)
    ensures Sum(Histogram(acc, slots)) == Hits(acc, slots)
  {
    if |acc| == 0 {
      SumZero(Histogram(acc, slots));
    } else {
      var k := |acc| - 1;
      HistogramIsHits(acc[..k], slots);
      SumStep(acc, k, slots);
      assert acc[..k + 1] == acc;
    }
  }

  /** Every access is cold or has a distance below the number of experts. */
  lemma {:induction false} ColdAndHits(acc: seq<Access>, n: nat)
    requires forall i :: 0 <= i < |acc| ==> acc[i].e < n
    ensures Cold(acc) + Hits(acc, n) == |acc|
  {
    if |acc| > 0 {
      var k := |acc| - 1;
      ColdAndHits(acc[..k], n);
      StackBelow(acc[..k], acc[k].l, n);
    }
  }

  /** More slots never lose a hit. */
  lemma {:induction false} HitsMonotone(acc: seq<Access>, c: nat, d: nat)
    requires c <= d
    ensures Hits(acc, c) <= Hits(acc, d)
  {
    if |acc| > 0 { HitsMonotone(acc[..|acc| - 1], c, d); }
  }

  /** A layer's accesses, taken alone, have the distances they have among all accesses. */
  lemma LayerDistance(acc: seq<Access>, a: Access)
    ensures Distance(OfLayer(acc, a.l), a) == Distance(acc, a)
  {
    StackOfLayer(acc, a.l);
  }

  // ---------------------------------------------------------------------------
  // A row of last-use times
  // ---------------------------------------------------------------------------

  predicate Below(top: seq<nat>, n: nat) {
    forall i :: 0 <= i < |top| ==> top[i] < n
  }

  /** Later uses come first. */
  predicate Ordered(row: seq<nat>, top: seq<nat>)
    requires Below(top, |row|)
  {
    forall i, j :: 0 <= i < j < |top| ==> row[top[i]] > row[top[j]]
  }

  /** row[e] is the time of e's last use if e is among top, else 0; later uses come first
      in top; no time is after the clock. */
  ghost predicate RowOk(row: seq<nat>, clock: nat, top: seq<nat>) {
    && NoDup(top) && Below(top, |row|) && Ordered(row, top)
    && (forall x :: 0 <= x < |row| ==> row[x] <= clock && (row[x] > 0 <==> x in top))
  }

  lemma {:induction false} RowTouched(row: seq<nat>, clock: nat, top: seq<nat>, e: nat, now: nat)
    requires RowOk(row, clock, top) && e < |row| && now > clock
    ensures RowOk(row[e := now], now, Touch(top, e))
  {
    EraseNoDup(top, e);
    var rest := Erase(top, e);
    var t := Touch(top, e);
    var r := row[e := now];
    forall x | 0 <= x < |r| ensures r[x] <= now && (r[x] > 0 <==> x in t) {
      assert x in t <==> x == e || x in rest;
    }
    EraseOrder(row, top, e);
    assert forall i :: 0 <= i < |rest| ==> rest[i] in top;
    FrontOrder(row, clock, rest, e, now);
  }

  /** A later use goes to the front. */
  lemma {:induction false} FrontOrder(row: seq<nat>, clock: nat, rest: seq<nat>, e: nat, now: nat)
    requires Below(rest, |row|) && Ordered(row, rest) && e < |row| && now > clock && e !in rest
    requires forall x :: 0 <= x < |row| ==> row[x] <= clock
    ensures Below([e] + rest, |row|) && Ordered(row[e := now], [e] + rest)
  {
    var t, r := [e] + rest, row[e := now];
    forall i, j | 0 <= i < j < |t| ensures r[t[i]] > r[t[j]] {
      assert t[j] == rest[j - 1];
      if i > 0 { assert t[i] == rest[i - 1]; }
    }
  }

  lemma {:induction false} EraseOrder(row: seq<nat>, top: seq<nat>, e: nat)
    requires Below(top, |row|) && Ordered(row, top)
    ensures Below(Erase(top, e), |row|) && Ordered(row, Erase(top, e))
  {
  }

  /** Time passing elsewhere. */
  lemma RowLater(row: seq<nat>, clock: nat, top: seq<nat>, now: nat)
    requires RowOk(row, clock, top) && now >= clock
    ensures RowOk(row, now, top)
  {
  }

  /** How many entries of the first n are later than t. */
  function Newer(row: seq<nat>, t: nat, n: nat): nat
    requires n <= |row|
  {
    if n == 0 then 0 else Newer(row, t, n - 1) + (if row[n - 1] > t then 1 else 0)
  }

  ghost function NewerSet(row: seq<nat>, t: nat, n: nat): set<nat>
    requires n <= |row|
  {
    set x: nat | x < n && row[x] > t
  }

  lemma {:induction false} NewerCard(row: seq<nat>, t: nat, n: nat)
    requires n <= |row|
    ensures Newer(row, t, n) == |NewerSet(row, t, n)|
  {
    if n == 0 {
      assert NewerSet(row, t, 0) == {};
    } else {
      NewerCard(row, t, n - 1);
      assert NewerSet(row, t, n) == NewerSet(row, t, n - 1) + (if row[n - 1] > t then {n - 1} else {});
    }
  }

  /** Exactly the experts in front of e in the stack were used later. */
  lemma {:induction false} NewerIsFront(row: seq<nat>, clock: nat, top: seq<nat>, p: nat, x: nat)
    requires RowOk(row, clock, top) && p < |top|
    ensures x in NewerSet(row, row[top[p]], |row|) <==> x in top[..p]
  {
    if x < |row| && row[x] > row[top[p]] {
      var i :| 0 <= i < |top| && top[i] == x;
      assert i <= p;
      assert top[..p][i] == x;
    }
    if x in top[..p] {
      var i :| 0 <= i < p && top[..p][i] == x;
      assert row[top[i]] > row[top[p]];
    }
  }

  /** Counting the later times counts the experts in front of e in the stack. */
  lemma {:induction false} NewerIsPosition(row: seq<nat>, clock: nat, top: seq<nat>, e: nat)
    requires RowOk(row, clock, top) && e in top
    ensures e < |row| && Newer(row, row[e], |row|) == Find(top, e)
  {
    var p := Find(top, e);
    NewerCard(row, row[e], |row|);
    NoDupCard(top[..p]);
    forall x: nat ensures x in NewerSet(row, row[e], |row|) <==> x in top[..p] {
      NewerIsFront(row, clock, top, p, x);
    }
    assert NewerSet(row, row[e], |row|) == Elements(top[..p]);
  }

  // ---------------------------------------------------------------------------
  // One more access
  // ---------------------------------------------------------------------------

  lemma {:induction false} StackNext(acc: seq<Access>, a: Access, l: nat)
    ensures Stack(acc + [a], l) == (if a.l == l then Touch(Stack(acc, l), a.e) else Stack(acc, l))
  {
    assert (acc + [a])[..|acc|] == acc;
  }

  lemma {:induction false} CountsNext(acc: seq<Access>, a: Access, slots: nat)
    ensures Hits(acc + [a], slots) == Hits(acc, slots) + (if HitAt(acc, a, slots) then 1 else 0)
    ensures Cold(acc + [a]) == Cold(acc) + (if Distance(acc, a) == None then 1 else 0)
    ensures OfLayer(acc + [a], a.l) == OfLayer(acc, a.l) + [a]
    ensures forall l: nat :: l != a.l ==> OfLayer(acc + [a], l) == OfLayer(acc, l)
  {
    assert (acc + [a])[..|acc|] == acc;
  }

  /** The histogram with one more entry at distance d, if there is one below n. */
  function Bumped(h: seq<nat>, d: Option<nat>): seq<nat> {
    if d.Some? && d.value < |h| then h[d.value := h[d.value] + 1] else h
  }

  lemma {:induction false} HistogramNext(acc: seq<Access>, a: Access, n: nat)
    ensures Histogram(acc + [a], n) == Bumped(Histogram(acc, n), Distance(acc, a))
  {
    assert (acc + [a])[..|acc|] == acc;
  }

  lemma {:induction false} LayerHistogramNext(acc: seq<Access>, a: Access, n: nat)
    ensures Histogram(OfLayer(acc + [a], a.l), n) == Bumped(Histogram(OfLayer(acc, a.l), n), Distance(acc, a))
  {
    CountsNext(acc, a, n);
    LayerDistance(acc, a);
    HistogramNext(OfLayer(acc, a.l), a, n);
  }
}
