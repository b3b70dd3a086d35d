/** Sequence vocabulary shared by the models: duplicate-free queues, the deque
    operations of the cache, sums and multiplicities. */
module Seqs {

  datatype Option<+T> = None | Some(value: T)

  ghost predicate NoDup<T>(q: seq<T>) {
    forall i, j :: 0 <= i < j < |q| ==> q[i] != q[j]
  }

  /** Position of the first x in q, or |q| (std::find). */
  function Find<T(==)>(q: seq<T>, x: T): (i: nat)
    ensures i <= |q|
    ensures i < |q| ==> q[i] == x
    ensures forall k :: 0 <= k < i ==> q[k] != x
    ensures x in q <==> i < |q|
  {
    if |q| == 0 || q[0] == x then 0 else 1 + Find(q[1..], x)
  }

  /** std::find followed by erase, when the element is there. */
  function Erase<T(==)>(q: seq<T>, x: T): seq<T> {
    var i := Find(q, x);
    if i < |q| then q[..i] + q[i + 1..] else q
  }

  /** What a pop_front/push_back scan leaves behind once it has passed q[..i]
      and removed q[i]. */
  function Rotate<T>(q: seq<T>, i: nat): seq<T>
    requires i < |q|
  {
    q[i + 1..] + q[..i]
  }

  /** Drop elements from the front until at most n are left. */
  function TrimFront<T>(q: seq<T>, n: nat): seq<T> {
    if |q| <= n then q else q[|q| - n..]
  }

  lemma EraseNoDup<T>(q: seq<T>, x: T)
    requires NoDup(q)
    ensures NoDup(Erase(q, x))
    ensures forall y :: y in Erase(q, x) <==> y in q && y != x
    ensures |Erase(q, x)| == |q| - (if x in q then 1 else 0)
  {
    var i := Find(q, x);
    if i < |q| {
      forall y | y in q && y != x ensures y in Erase(q, x) {
        var k :| 0 <= k < |q| && q[k] == y;
        assert Erase(q, x)[if k < i then k else k - 1] == y;
      }
    }
  }

  lemma RotateNoDup<T>(q: seq<T>, i: nat)
    requires NoDup(q) && i < |q|
    ensures NoDup(Rotate(q, i))
    ensures forall y :: y in Rotate(q, i) <==> y in q && y != q[i]
  {
    forall y | y in q && y != q[i] ensures y in Rotate(q, i) {
      var k :| 0 <= k < |q| && q[k] == y;
      assert Rotate(q, i)[if k > i then k - i - 1 else |q| - i - 1 + k] == y;
    }
  }

  lemma AppendNoDup<T>(q: seq<T>, x: T)
    requires NoDup(q) && x !in q
    ensures NoDup(q + [x]) && NoDup([x] + q)
  {
  }

  lemma TrimNoDup<T>(q: seq<T>, n: nat)
    requires NoDup(q)
    ensures NoDup(TrimFront(q, n)) && |TrimFront(q, n)| <= n
    ensures forall y :: y in TrimFront(q, n) ==> y in q
  {
  }

  function Sum(s: seq<int>): int {
    if |s| == 0 then 0 else Sum(s[..|s| - 1]) + s[|s| - 1]
  }

  lemma {:induction false} SumUpdate(s: seq<int>, i: nat, v: int)
    requires i < |s|
    ensures Sum(s[i := v]) == Sum(s) - s[i] + v
  {
    var n := |s| - 1;
    if i == n {
      assert s[i := v][..n] == s[..n];
    } else {
      assert s[i := v][..n] == s[..n][i := v];
      SumUpdate(s[..n], i, v);
    }
  }

  lemma {:induction false} SumZero(s: seq<int>)
    requires forall i :: 0 <= i < |s| ==> s[i] == 0
    ensures Sum(s) == 0
  {
    if |s| > 0 { SumZero(s[..|s| - 1]); }
  }

  lemma {:induction false} SumMono(a: seq<int>, b: seq<int>)
    requires |a| == |b|
    requires forall i :: 0 <= i < |a| ==> a[i] <= b[i]
    ensures Sum(a) <= Sum(b)
  {
    if |a| > 0 {
      SumMono(a[..|a| - 1], b[..|b| - 1]);
    }
  }

  ghost function Elements<T>(q: seq<T>): set<T> {
    set x | x in q
  }

  /** A duplicate-free sequence has as many members as positions. */
  lemma {:induction false} NoDupCard<T>(q: seq<T>)
    requires NoDup(q)
    ensures |Elements(q)| == |q|
  {
    if |q| > 0 {
      var n := |q| - 1;
      NoDupCard(q[..n]);
      assert Elements(q) == Elements(q[..n]) + {q[n]};
    }
  }

  lemma SubsetCard<T>(a: set<T>, b: set<T>)
    requires a <= b
    ensures |a| <= |b|
  {
    assert b == a + (b - a);
  }

  lemma {:induction false} BoundedNoDup(q: seq<nat>, n: nat)
    requires NoDup(q) && forall e :: e in q ==> e < n
    ensures |q| <= n
  {
    NoDupCard(q);
    RangeCard(n);
    assert Elements(q) <= Range(n);
    SubsetCard(Elements(q), Range(n));
  }

  /** 0, ..., n - 1 as a set. */
  ghost function Range(n: nat): set<nat> {
    if n == 0 then {} else Range(n - 1) + {n - 1}
  }

  lemma {:induction false} RangeCard(n: nat)
    ensures |Range(n)| == n
    ensures forall x: nat :: x in Range(n) <==> x < n
  {
    if n > 0 { RangeCard(n - 1); }
  }
}
