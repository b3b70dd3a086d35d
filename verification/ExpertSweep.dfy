/** Which experts a pass of an Expert Sweep owns: the distinct experts of the batch in
    ascending order, cut into np parts of at most ceil(D / np). */
module ExpertSweep {
  import opened Arithmetic
  import opened Seqs

  /** The distinct in-range experts of a batch, ascending. */
  function Distinct(ids: seq<int>, n: nat): (d: seq<nat>)
    ensures |d| <= n
    ensures forall e: nat :: e in d <==> e < n && e in ids
    ensures forall i, j :: 0 <= i < j < |d| ==> d[i] < d[j]
  {
    if n == 0 then []
    else
      var d := Distinct(ids, n - 1);
      assert forall i :: 0 <= i < |d| ==> d[i] in d;
      if n - 1 in ids then d + [n - 1] else d
  }

  /** ceil(D / np) */
  function Per(d: nat, np: nat): nat
    requires np > 0
  {
    (d + np - 1) / np
  }

  /** Part number pass of d things, per to a part, starts at Lo and ends before Hi. */
  function Lo(d: nat, per: nat, pass: nat): (lo: nat)
    ensures lo <= d
  {
    Min(d, pass * per)
  }

  function Hi(d: nat, per: nat, pass: nat): (hi: nat)
    ensures Lo(d, per, pass) <= hi <= d
  {
    Min(d, Lo(d, per, pass) + per)
  }

  function OwnPart(d: seq<nat>, n: nat, per: nat, pass: nat): (own: seq<bool>)
    ensures |own| == n
  {
    seq(n, e => e in d[Lo(|d|, per, pass)..Hi(|d|, per, pass)])
  }

  /** The experts of pass `pass` out of np; a call that is not split owns them all. */
  function Own(ids: seq<int>, n: nat, np: nat, pass: nat): (own: seq<bool>)
    ensures |own| == n
  {
    if np <= 1 then seq(n, _ => true)
    else OwnPart(Distinct(ids, n), n, Per(|Distinct(ids, n)|, np), pass)
  }

  lemma {:induction false} PerCovers(d: nat, np: nat)
    requires np > 0
    ensures d <= np * Per(d, np) < d + np
  {
    DivisionParts(d + np - 1, np);
  }

  /** Position i falls in part i / per and in no other. */
  lemma {:induction false} PartOf(d: nat, per: nat, i: nat, pass: nat, p: nat)
    requires p * per <= i < p * per + per && i < d
    ensures Lo(d, per, pass) <= i < Hi(d, per, pass) <==> pass == p
  {
    if pass < p {
      ProductGap(pass, p, per);
    } else if pass > p {
      ProductGap(p, pass, per);
    }
  }

  /** The part a position falls in is one of the np. */
  lemma PartExists(d: nat, np: nat, per: nat, i: nat) returns (p: nat)
    requires d <= np * per && i < d
    ensures p < np && p * per <= i < p * per + per
  {
    p := 0;
    while i >= p * per + per
      invariant p < np && p * per <= i
      decreases np - p
    {
      if p + 1 >= np { ProductMono(np, p + 1, per); }
      ProductNext(p, per);
      p := p + 1;
    }
  }

  /** Membership in a part is position in the part. */
  lemma InPart(d: seq<nat>, n: nat, per: nat, pass: nat, i: nat)
    requires i < |d| && d[i] < n && NoDup(d)
    ensures OwnPart(d, n, per, pass)[d[i]] <==> Lo(|d|, per, pass) <= i < Hi(|d|, per, pass)
  {
    var lo, hi := Lo(|d|, per, pass), Hi(|d|, per, pass);
    if lo <= i < hi { assert d[lo..hi][i - lo] == d[i]; }
    if d[i] in d[lo..hi] {
      var j :| 0 <= j < hi - lo && d[lo..hi][j] == d[i];
      assert d[lo + j] == d[i];
    }
  }

  /** A sweep is a partition: every expert of the batch belongs to exactly one of the np
      passes. */
  lemma SweepPartition(ids: seq<int>, n: nat, np: nat, e: nat) returns (p: nat)
    requires np > 1 && e < n && e in ids
    ensures p < np && forall pass: nat :: Own(ids, n, np, pass)[e] <==> pass == p
  {
    var d := Distinct(ids, n);
    var per := Per(|d|, np);
    PerCovers(|d|, np);
    p := PartitionBy(d, n, np, per, e);
  }

  lemma PartitionBy(d: seq<nat>, n: nat, np: nat, per: nat, e: nat) returns (p: nat)
    requires |d| <= np * per && e < n && e in d && NoDup(d)
    ensures p < np && forall pass: nat :: OwnPart(d, n, per, pass)[e] <==> pass == p
  {
    var i := Find(d, e);
    p := PartExists(|d|, np, per, i);
    forall pass: nat ensures OwnPart(d, n, per, pass)[e] <==> pass == p {
      PartOf(|d|, per, i, pass, p);
      InPart(d, n, per, pass, i);
    }
  }

  /** Experts that do not occur in the batch belong to no pass. */
  lemma SweepOnlyBatch(ids: seq<int>, n: nat, np: nat, e: nat, pass: nat)
    requires np > 1 && e < n && e !in ids
    ensures !Own(ids, n, np, pass)[e]
  {
    var d := Distinct(ids, n);
    var per := Per(|d|, np);
    var lo, hi := Lo(|d|, per, pass), Hi(|d|, per, pass);
    assert forall j :: 0 <= j < hi - lo ==> d[lo..hi][j] == d[lo + j] && d[lo + j] in d;
  }

  /** The experts a pass owns. */
  ghost function Owned(own: seq<bool>): set<nat> {
    set e: nat | e < |own| && own[e]
  }

  /** No pass owns more than ceil(D / np) experts. */
  lemma SweepBound(ids: seq<int>, n: nat, np: nat, pass: nat)
    requires np > 1
    ensures |Owned(Own(ids, n, np, pass))| <= Per(|Distinct(ids, n)|, np)
    ensures |Owned(Own(ids, n, np, pass))| * np < |Distinct(ids, n)| + np
  {
    var d := Distinct(ids, n);
    PerCovers(|d|, np);
    PartBelow(ids, n, np, pass);
    ProductMono(|Owned(Own(ids, n, np, pass))|, Per(|d|, np), np);
  }

  lemma {:induction false} PartBelow(ids: seq<int>, n: nat, np: nat, pass: nat)
    requires np > 1
    ensures |Owned(Own(ids, n, np, pass))| <= Per(|Distinct(ids, n)|, np)
  {
    var d := Distinct(ids, n);
    var per := Per(|d|, np);
    var part := d[Lo(|d|, per, pass)..Hi(|d|, per, pass)];
    NoDupCard(part);
    assert Owned(Own(ids, n, np, pass)) <= Elements(part);
    SubsetCard(Owned(Own(ids, n, np, pass)), Elements(part));
  }
}
