/** load_layer_arena as the program runs it: reset the buffer when it switches layers, list
    the three reads of every needed expert that is not present while marking it present,
    carry the reads out. */
module PrefillLoader {
  import opened Seqs
  import opened Memory
  import opened PrefillArena

  /** The cells of the first n experts that a load must read. */
  ghost predicate Listed(jobs: seq<Cell>, need: Option<seq<bool>>, have: seq<bool>, n: nat)
    requires n <= |have| && (need.Some? ==> |need.value| == |have|)
  {
    NoDup(jobs) && forall c :: c in jobs <==> c.r < ROLES && c.e < n && Missing(need, have, c.e)
  }

  lemma ListedNext(jobs: seq<Cell>, need: Option<seq<bool>>, have: seq<bool>, n: nat)
    requires n < |have| && (need.Some? ==> |need.value| == |have|) && Listed(jobs, need, have, n)
    ensures Missing(need, have, n) ==> Listed(jobs + [Cell(0, n), Cell(1, n), Cell(2, n)], need, have, n + 1)
    ensures !Missing(need, have, n) ==> Listed(jobs, need, have, n + 1)
  {
    if Missing(need, have, n) {
      var more := jobs + [Cell(0, n), Cell(1, n), Cell(2, n)];
      forall c ensures c in more <==> c.r < ROLES && c.e < n + 1 && Missing(need, have, c.e) {
        if c.e == n && c.r < ROLES { assert more[|jobs| + c.r] == c; }
        if c in jobs {
          var k :| 0 <= k < |jobs| && jobs[k] == c;
          assert more[k] == c;
        }
      }
    }
  }

  method ListJobs(need: Option<seq<bool>>, have0: seq<bool>) returns (have: seq<bool>, jobs: seq<Cell>)
    requires need.Some? ==> |need.value| == |have0|
    ensures have == Marked(have0, need)
    ensures Listed(jobs, need, have0, |have0|)
  {
    have, jobs := have0, [];
    var e := 0;
    while e < |have0|
      invariant 0 <= e <= |have0| && |have| == |have0|
      invariant forall k :: 0 <= k < |have0| ==> have[k] == (if k < e then have0[k] || Needed(need, k) else have0[k])
      invariant Listed(jobs, need, have0, e)
    {
      ListedNext(jobs, need, have0, e);
      if Needed(need, e) && !have[e] {
        jobs := AddCells(jobs, e);
        have := have[e := true];
      }
      e := e + 1;
    }
  }

  method AddCells(jobs0: seq<Cell>, e: nat) returns (jobs: seq<Cell>)
    ensures jobs == jobs0 + [Cell(0, e), Cell(1, e), Cell(2, e)]
  {
    jobs := jobs0;
    var r := 0;
    while r < 3
      invariant 0 <= r <= 3 && jobs == jobs0 + [Cell(0, e), Cell(1, e), Cell(2, e)][..r]
    {
      jobs := jobs + [Cell(r, e)];
      r := r + 1;
    }
  }

  class PrefillBuffers {
    const nbuf: nat
    var arenas: seq<Arena>

    /** nbuf buffers of size bytes, holding no layer. */
    constructor (nbuf: nat, size: nat)
      requires nbuf >= 1
      ensures this.nbuf == nbuf && arenas == seq(nbuf, _ => Arena(seq(size, _ => 0), -1, []))
    {
      this.nbuf := nbuf;
      arenas := seq(nbuf, _ => Arena(seq(size, _ => 0), -1, []));
    }

    /** Load the needed experts of layer il into its buffer. Afterwards every expert marked
        present there, the needed ones among them, has the file's bytes; other buffers are
        untouched. */
    method LoadLayerArena(il: int, L: ExpertLayer, need: Option<seq<bool>>)
      requires 1 <= nbuf == |arenas|
      requires LayerOk(L, |arenas[il % nbuf].mem|) && (need.Some? ==> |need.value| == L.ne)
      requires arenas[il % nbuf].layer == il ==> Holds(L, arenas[il % nbuf], {})
      modifies this
      ensures |arenas| == old(|arenas|)
      ensures forall b :: 0 <= b < |arenas| && b != il % nbuf ==> arenas[b] == old(arenas[b])
      ensures var a := arenas[il % nbuf];
        Holds(L, a, {}) && a.(mem := old(arenas[il % nbuf].mem)) == Plan(old(arenas[il % nbuf]), L, il, need).0
    {
      var bi := il % nbuf;
      var a := arenas[bi];
      PlanHolds(a, L, il, need);
      ghost var planned := Plan(a, L, il, need);
      if a.layer != il {
        a := a.(layer := il, have := seq(L.ne, _ => false));
      }
      var have, jobs := ListJobs(need, a.have);
      assert planned.1 == Elements(jobs) by {
        forall c ensures c in planned.1 <==> c in jobs {
          assert c == Cell(c.r, c.e);
        }
      }
      a := a.(have := have);
      a := ReadAll(L, a, jobs);
      arenas := arenas[bi := a];
    }
  }

  method ReadAll(L: ExpertLayer, a0: Arena, jobs: seq<Cell>) returns (a: Arena)
    requires NoDup(jobs) && Holds(L, a0, Elements(jobs))
    ensures Holds(L, a, {}) && a == a0.(mem := a.mem)
  {
    a := a0;
    var k := 0;
    assert jobs[0..] == jobs;
    while k < |jobs|
      invariant 0 <= k <= |jobs| && a == a0.(mem := a.mem)
      invariant Holds(L, a, Elements(jobs[k..]))
    {
      assert jobs[k..] == [jobs[k]] + jobs[k + 1..];
      assert jobs[k] in jobs[k..];
      assert jobs[k] !in jobs[k + 1..];
      assert Elements(jobs[k..]) - {jobs[k]} == Elements(jobs[k + 1..]);
      ReadHolds(L, a, Elements(jobs[k..]), jobs[k]);
      a := a.(mem := ReadCell(L, a.mem, jobs[k]));
      k := k + 1;
    }
    assert Elements(jobs[|jobs|..]) == {};
  }
}
