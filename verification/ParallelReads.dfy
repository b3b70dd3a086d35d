/** Read jobs shared by worker threads through one atomic counter.

    Each worker repeatedly claims the next job number and copies its bytes piece by piece,
    as pread delivers them. Whatever the interleaving, when all workers have returned every
    job was claimed exactly once and memory is what running the jobs one after the other
    would have left. */
module ParallelReads {
  import opened Memory

  /** Bytes to be read to address dst. */
  datatype Job = Job(dst: nat, src: Block)

  datatype Worker = Idle | Reading(k: nat, done: nat) | Finished

  /** next: the counter; prog: bytes copied per job; log: the jobs claimed, in order. */
  datatype Pool = Pool(mem: Block, next: nat, workers: seq<Worker>, prog: seq<nat>, log: seq<nat>)

  /** Jobs write inside memory and nowhere in common. */
  ghost predicate JobsOk(jobs: seq<Job>, size: nat) {
    && (forall k :: 0 <= k < |jobs| ==> jobs[k].dst + |jobs[k].src| <= size)
    && (forall j, k :: 0 <= j < k < |jobs| ==> Disjoint(jobs[j].dst, |jobs[j].src|, jobs[k].dst, |jobs[k].src|))
  }

  /** The jobs one after the other. */
  function Sequential(mem: Block, jobs: seq<Job>): (r: Block)
    requires forall k :: 0 <= k < |jobs| ==> jobs[k].dst + |jobs[k].src| <= |mem|
    ensures |r| == |mem|
  {
    if |jobs| == 0 then mem
    else
      var last := jobs[|jobs| - 1];
      Blit(Sequential(mem, jobs[..|jobs| - 1]), last.dst, last.src)
  }

  ghost predicate Init(p: Pool, mem: Block, jobs: seq<Job>) {
    && p.mem == mem && p.next == 0 && |p.workers| > 0 && (forall w :: 0 <= w < |p.workers| ==> p.workers[w] == Idle)
    && p.prog == seq(|jobs|, _ => 0) && p.log == []
  }

  // ---------------------------------------------------------------------------
  // Steps of one worker
  // ---------------------------------------------------------------------------

  /** fetch_add on the counter. */
  function Claim(p: Pool, w: nat, jobs: seq<Job>): Pool
    requires w < |p.workers|
  {
    if p.next < |jobs| then
      p.(next := p.next + 1, workers := p.workers[w := Reading(p.next, 0)], log := p.log + [p.next])
    else
      p.(next := p.next + 1, workers := p.workers[w := Finished])
  }

  ghost predicate CanCopy(p: Pool, w: nat, n: nat, jobs: seq<Job>) {
    && w < |p.workers| && p.workers[w].Reading? && p.workers[w].k < |jobs| == |p.prog|
    && n > 0 && p.workers[w].done + n <= |jobs[p.workers[w].k].src|
    && jobs[p.workers[w].k].dst + |jobs[p.workers[w].k].src| <= |p.mem|
  }

  /** pread delivered n more bytes. */
  function Copy(p: Pool, w: nat, n: nat, jobs: seq<Job>): Pool
    requires CanCopy(p, w, n, jobs)
  {
    var k, d := p.workers[w].k, p.workers[w].done;
    p.(mem := Blit(p.mem, jobs[k].dst + d, jobs[k].src[d..d + n]),
       workers := p.workers[w := Reading(k, d + n)], prog := p.prog[k := d + n])
  }

  datatype Event = Claims(w: nat) | Copies(w: nat, n: nat) | Finishes(w: nat)

  ghost predicate CanFinish(p: Pool, w: nat, jobs: seq<Job>) {
    w < |p.workers| && p.workers[w].Reading? && p.workers[w].k < |jobs| && p.workers[w].done == |jobs[p.workers[w].k].src|
  }

  ghost predicate Next(p: Pool, ev: Event, q: Pool, jobs: seq<Job>) {
    match ev
    case Claims(w) => w < |p.workers| && p.workers[w] == Idle && q == Claim(p, w, jobs)
    case Copies(w, n) => CanCopy(p, w, n, jobs) && q == Copy(p, w, n, jobs)
    case Finishes(w) => CanFinish(p, w, jobs) && q == p.(workers := p.workers[w := Idle])
  }

  // ---------------------------------------------------------------------------
  // The invariant
  // ---------------------------------------------------------------------------

  /** Address a belongs to the part of some job already copied. */
  ghost predicate Written(jobs: seq<Job>, prog: seq<nat>, a: nat)
    requires |prog| == |jobs|
  {
    exists k :: 0 <= k < |jobs| && jobs[k].dst <= a < jobs[k].dst + prog[k]
  }

  /** Copied prefixes are in place, everything else is as it was. */
  ghost predicate MemOk(mem: Block, mem0: Block, jobs: seq<Job>, prog: seq<nat>) {
    && |mem| == |mem0| && |prog| == |jobs|
    && (forall k, i :: 0 <= k < |jobs| && 0 <= i < prog[k] <= |jobs[k].src| && jobs[k].dst + i < |mem| ==>
          mem[jobs[k].dst + i] == jobs[k].src[i])
    && (forall a :: 0 <= a < |mem| && !Written(jobs, prog, a) ==> mem[a] == mem0[a])
  }

  ghost predicate Busy(p: Pool, k: nat) {
    exists w :: 0 <= w < |p.workers| && p.workers[w].Reading? && p.workers[w].k == k
  }

  ghost predicate WorkOk(p: Pool, jobs: seq<Job>) {
    && |p.prog| == |jobs|
    && p.log == seq(if p.next < |jobs| then p.next else |jobs|, k => k)
    && (forall k :: 0 <= k < |jobs| ==> p.prog[k] <= |jobs[k].src|)
    && (forall k :: 0 <= k < |jobs| && p.next <= k ==> p.prog[k] == 0)
    && (forall w :: 0 <= w < |p.workers| && p.workers[w].Reading? ==>
          p.workers[w].k < |jobs| && p.workers[w].k < p.next && p.workers[w].done == p.prog[p.workers[w].k])
    && (forall v, w :: 0 <= v < w < |p.workers| && p.workers[v].Reading? && p.workers[w].Reading? ==>
          p.workers[v].k != p.workers[w].k)
    && (forall k :: 0 <= k < |jobs| && k < p.next ==> p.prog[k] == |jobs[k].src| || Busy(p, k))
    && (forall w :: 0 <= w < |p.workers| && p.workers[w] == Finished ==> p.next > |jobs|)
  }

  ghost predicate Inv(p: Pool, mem0: Block, jobs: seq<Job>) {
    WorkOk(p, jobs) && MemOk(p.mem, mem0, jobs, p.prog)
  }

  lemma InitInv(p: Pool, mem: Block, jobs: seq<Job>)
    requires Init(p, mem, jobs)
    ensures Inv(p, mem, jobs)
  {
  }

  lemma ClaimKeeps(p: Pool, w: nat, jobs: seq<Job>)
    requires WorkOk(p, jobs) && w < |p.workers| && p.workers[w] == Idle
    ensures WorkOk(Claim(p, w, jobs), jobs)
  {
    var q := Claim(p, w, jobs);
    forall k | 0 <= k < |jobs| && k < q.next ensures q.prog[k] == |jobs[k].src| || Busy(q, k) {
      if k < p.next {
        if Busy(p, k) {
          var v :| 0 <= v < |p.workers| && p.workers[v].Reading? && p.workers[v].k == k;
          assert q.workers[v].Reading? && q.workers[v].k == k;
        }
      } else {
        assert q.workers[w].Reading? && q.workers[w].k == k;
      }
    }
  }

  lemma CopyKeepsWork(p: Pool, w: nat, n: nat, jobs: seq<Job>)
    requires WorkOk(p, jobs) && CanCopy(p, w, n, jobs)
    ensures WorkOk(Copy(p, w, n, jobs), jobs)
  {
    var q := Copy(p, w, n, jobs);
    forall k | 0 <= k < |jobs| && k < q.next ensures q.prog[k] == |jobs[k].src| || Busy(q, k) {
      if Busy(p, k) {
        var v :| 0 <= v < |p.workers| && p.workers[v].Reading? && p.workers[v].k == k;
        assert q.workers[v].Reading? && q.workers[v].k == k;
      }
    }
  }

  lemma FinishKeeps(p: Pool, w: nat, jobs: seq<Job>)
    requires WorkOk(p, jobs) && CanFinish(p, w, jobs)
    ensures WorkOk(p.(workers := p.workers[w := Idle]), jobs)
  {
    var q := p.(workers := p.workers[w := Idle]);
    forall k | 0 <= k < |jobs| && k < q.next ensures q.prog[k] == |jobs[k].src| || Busy(q, k) {
      if Busy(p, k) && k != p.workers[w].k {
        var v :| 0 <= v < |p.workers| && p.workers[v].Reading? && p.workers[v].k == k;
        assert q.workers[v].Reading? && q.workers[v].k == k;
      }
    }
  }

  lemma WrittenGrows(jobs: seq<Job>, prog: seq<nat>, k: nat, d: nat, a: nat)
    requires |prog| == |jobs| && k < |jobs| && prog[k] <= d
    ensures Written(jobs, prog, a) ==> Written(jobs, prog[k := d], a)
  {
    if Written(jobs, prog, a) {
      var j :| 0 <= j < |jobs| && jobs[j].dst <= a < jobs[j].dst + prog[j];
      assert jobs[j].dst <= a < jobs[j].dst + prog[k := d][j];
    }
  }

  /** Copying a piece of one job: its prefix grows, no other byte changes. */
  lemma {:induction false} CopyKeepsMem(mem: Block, mem0: Block, jobs: seq<Job>, prog: seq<nat>, k: nat, n: nat)
    requires MemOk(mem, mem0, jobs, prog) && JobsOk(jobs, |mem|) && k < |jobs|
    requires forall j :: 0 <= j < |jobs| ==> prog[j] <= |jobs[j].src|
    requires prog[k] + n <= |jobs[k].src|
    ensures MemOk(Blit(mem, jobs[k].dst + prog[k], jobs[k].src[prog[k]..prog[k] + n]), mem0, jobs, prog[k := prog[k] + n])
  {
    var d := prog[k];
    var after := Blit(mem, jobs[k].dst + d, jobs[k].src[d..d + n]);
    var prog' := prog[k := d + n];
    forall j, i | 0 <= j < |jobs| && 0 <= i < prog'[j] <= |jobs[j].src| && jobs[j].dst + i < |mem|
      ensures after[jobs[j].dst + i] == jobs[j].src[i]
    {
      CopiedByte(mem, mem0, jobs, prog, k, n, j, i);
    }
    forall a | 0 <= a < |mem| && !Written(jobs, prog', a) ensures after[a] == mem0[a] {
      OtherByte(mem, mem0, jobs, prog, k, n, a);
    }
  }

  lemma {:induction false} CopiedByte(mem: Block, mem0: Block, jobs: seq<Job>, prog: seq<nat>, k: nat, n: nat, j: nat, i: nat)
    requires MemOk(mem, mem0, jobs, prog) && JobsOk(jobs, |mem|) && k < |jobs| && prog[k] + n <= |jobs[k].src|
    requires j < |jobs| && i < prog[k := prog[k] + n][j] <= |jobs[j].src|
    ensures jobs[j].dst + i < |mem|
    ensures Blit(mem, jobs[k].dst + prog[k], jobs[k].src[prog[k]..prog[k] + n])[jobs[j].dst + i] == jobs[j].src[i]
  {
    CopyByte(mem, jobs, prog, k, n, jobs[j].dst + i);
    if j != k { assert Disjoint(jobs[j].dst, |jobs[j].src|, jobs[k].dst, |jobs[k].src|); }
  }

  lemma {:induction false} OtherByte(mem: Block, mem0: Block, jobs: seq<Job>, prog: seq<nat>, k: nat, n: nat, a: nat)
    requires MemOk(mem, mem0, jobs, prog) && JobsOk(jobs, |mem|) && k < |jobs| && prog[k] + n <= |jobs[k].src|
    requires a < |mem| && !Written(jobs, prog[k := prog[k] + n], a)
    ensures Blit(mem, jobs[k].dst + prog[k], jobs[k].src[prog[k]..prog[k] + n])[a] == mem0[a]
  {
    CopyByte(mem, jobs, prog, k, n, a);
    assert !(jobs[k].dst <= a < jobs[k].dst + prog[k := prog[k] + n][k]);
    WrittenGrows(jobs, prog, k, prog[k] + n, a);
  }

  /** Where a byte comes from after the copy. */
  lemma {:induction false} CopyByte(mem: Block, jobs: seq<Job>, prog: seq<nat>, k: nat, n: nat, a: nat)
    requires |prog| == |jobs| && k < |jobs| && prog[k] + n <= |jobs[k].src|
    requires jobs[k].dst + |jobs[k].src| <= |mem| && a < |mem|
    ensures var at, d := jobs[k].dst, prog[k];
      Blit(mem, at + d, jobs[k].src[d..d + n])[a] == if at + d <= a < at + d + n then jobs[k].src[a - at] else mem[a]
  {
  }

  lemma CopyKeeps(p: Pool, w: nat, n: nat, mem0: Block, jobs: seq<Job>)
    requires Inv(p, mem0, jobs) && JobsOk(jobs, |mem0|) && CanCopy(p, w, n, jobs)
    ensures Inv(Copy(p, w, n, jobs), mem0, jobs)
  {
    CopyKeepsWork(p, w, n, jobs);
    WorkerDone(p, w, jobs);
    CopyKeepsMemory(p, w, n, mem0, jobs);
  }

  lemma {:induction false} CopyKeepsMemory(p: Pool, w: nat, n: nat, mem0: Block, jobs: seq<Job>)
    requires MemOk(p.mem, mem0, jobs, p.prog) && JobsOk(jobs, |mem0|) && CanCopy(p, w, n, jobs)
    requires p.workers[w].done == p.prog[p.workers[w].k] && forall j :: 0 <= j < |jobs| ==> p.prog[j] <= |jobs[j].src|
    ensures MemOk(Copy(p, w, n, jobs).mem, mem0, jobs, Copy(p, w, n, jobs).prog)
  {
    CopyKeepsMem(p.mem, mem0, jobs, p.prog, p.workers[w].k, n);
    CopyIs(p, w, n, jobs);
  }

  /** What a copy does to memory and progress. */
  lemma {:induction false} CopyIs(p: Pool, w: nat, n: nat, jobs: seq<Job>)
    requires CanCopy(p, w, n, jobs) && p.workers[w].done == p.prog[p.workers[w].k]
    ensures var k := p.workers[w].k;
      && p.prog[k] + n <= |jobs[k].src| && jobs[k].dst + |jobs[k].src| <= |p.mem|
      && Copy(p, w, n, jobs).mem == Blit(p.mem, jobs[k].dst + p.prog[k], jobs[k].src[p.prog[k]..p.prog[k] + n])
      && Copy(p, w, n, jobs).prog == p.prog[k := p.prog[k] + n]
  {
  }

  /** A reading worker knows how far its job is. */
  lemma {:induction false} WorkerDone(p: Pool, w: nat, jobs: seq<Job>)
    requires WorkOk(p, jobs) && w < |p.workers| && p.workers[w].Reading?
    ensures p.workers[w].k < |jobs| && p.workers[w].done == p.prog[p.workers[w].k]
    ensures forall j :: 0 <= j < |jobs| ==> p.prog[j] <= |jobs[j].src|
  {
  }

  lemma NextKeeps(p: Pool, ev: Event, q: Pool, mem0: Block, jobs: seq<Job>)
    requires Inv(p, mem0, jobs) && JobsOk(jobs, |mem0|) && Next(p, ev, q, jobs)
    ensures Inv(q, mem0, jobs) && |q.workers| == |p.workers|
  {
    match ev
    case Claims(w) => ClaimKeeps(p, w, jobs);
    case Copies(w, n) => CopyKeeps(p, w, n, mem0, jobs);
    case Finishes(w) => FinishKeeps(p, w, jobs);
  }

  // ---------------------------------------------------------------------------
  // After the join
  // ---------------------------------------------------------------------------

  /** Memory is determined by the progress made. */
  lemma MemUnique(a: Block, b: Block, mem0: Block, jobs: seq<Job>, prog: seq<nat>)
    requires MemOk(a, mem0, jobs, prog) && MemOk(b, mem0, jobs, prog)
    requires forall k :: 0 <= k < |jobs| ==> prog[k] <= |jobs[k].src|
    ensures a == b
  {
    forall x | 0 <= x < |a| ensures a[x] == b[x] {
      if Written(jobs, prog, x) {
        var k :| 0 <= k < |jobs| && jobs[k].dst <= x < jobs[k].dst + prog[k];
        var i := x - jobs[k].dst;
        assert a[jobs[k].dst + i] == jobs[k].src[i] == b[jobs[k].dst + i];
      }
    }
  }

  /** The first n jobs done, the rest not begun. */
  function Prefix(jobs: seq<Job>, n: nat): seq<nat> {
    seq(|jobs|, k requires 0 <= k < |jobs| => if k < n then |jobs[k].src| else 0)
  }

  lemma {:induction false} SequentialOk(mem0: Block, jobs: seq<Job>, n: nat)
    requires JobsOk(jobs, |mem0|) && n <= |jobs|
    ensures MemOk(Sequential(mem0, jobs[..n]), mem0, jobs, Prefix(jobs, n))
  {
    if n > 0 {
      SequentialOk(mem0, jobs, n - 1);
      var m := Sequential(mem0, jobs[..n - 1]);
      assert jobs[..n][..n - 1] == jobs[..n - 1];
      var k := n - 1;
      CopyKeepsMem(m, mem0, jobs, Prefix(jobs, k), k, |jobs[k].src|);
      assert Prefix(jobs, k)[k := |jobs[k].src|] == Prefix(jobs, n);
      assert jobs[k].src[0..|jobs[k].src|] == jobs[k].src;
    }
  }

  /** An interleaving of the workers' steps. */
  ghost predicate IsRun(run: seq<Pool>, evs: seq<Event>, jobs: seq<Job>) {
    |run| == |evs| + 1 && forall i :: 0 <= i < |evs| ==> Next(run[i], evs[i], run[i + 1], jobs)
  }

  lemma {:induction false} RunInv(run: seq<Pool>, evs: seq<Event>, mem0: Block, jobs: seq<Job>, k: nat)
    requires IsRun(run, evs, jobs) && Init(run[0], mem0, jobs) && JobsOk(jobs, |mem0|) && k < |run|
    ensures Inv(run[k], mem0, jobs) && |run[k].workers| == |run[0].workers|
  {
    if k == 0 {
      InitInv(run[0], mem0, jobs);
    } else {
      RunInv(run, evs, mem0, jobs, k - 1);
      NextKeeps(run[k - 1], evs[k - 1], run[k], mem0, jobs);
    }
  }

  ghost predicate AllFinished(p: Pool) {
    forall w :: 0 <= w < |p.workers| ==> p.workers[w] == Finished
  }

  /** After the join, in any interleaving: each job was claimed exactly once, in order, and
      memory is what sequential execution leaves. */
  lemma JoinedIsSequential(run: seq<Pool>, evs: seq<Event>, mem0: Block, jobs: seq<Job>)
    requires IsRun(run, evs, jobs) && Init(run[0], mem0, jobs) && JobsOk(jobs, |mem0|)
    requires AllFinished(run[|run| - 1])
    ensures run[|run| - 1].log == seq(|jobs|, k => k)
    ensures run[|run| - 1].mem == Sequential(mem0, jobs)
  {
    var q := run[|run| - 1];
    RunInv(run, evs, mem0, jobs, |run| - 1);
    assert q.workers[0] == Finished;
    forall k | 0 <= k < |jobs| ensures q.prog[k] == |jobs[k].src| {
      assert !Busy(q, k);
    }
    assert q.prog == Prefix(jobs, |jobs|);
    SequentialOk(mem0, jobs, |jobs|);
    assert jobs[..|jobs|] == jobs;
    MemUnique(q.mem, Sequential(mem0, jobs), mem0, jobs, q.prog);
  }

  /** What that memory is, byte by byte: a job's bytes at its address, else what was there. */
  lemma SequentialByteIn(mem0: Block, jobs: seq<Job>, k: nat, i: nat)
    requires JobsOk(jobs, |mem0|) && k < |jobs| && i < |jobs[k].src|
    ensures Sequential(mem0, jobs)[jobs[k].dst + i] == jobs[k].src[i]
  {
    SequentialOk(mem0, jobs, |jobs|);
    assert jobs[..|jobs|] == jobs;
    assert Prefix(jobs, |jobs|)[k] == |jobs[k].src|;
  }

  lemma SequentialByteOut(mem0: Block, jobs: seq<Job>, a: nat)
    requires JobsOk(jobs, |mem0|) && a < |mem0|
    requires forall k :: 0 <= k < |jobs| ==> Disjoint(jobs[k].dst, |jobs[k].src|, a, 1)
    ensures Sequential(mem0, jobs)[a] == mem0[a]
  {
    SequentialOk(mem0, jobs, |jobs|);
    assert jobs[..|jobs|] == jobs;
    assert !Written(jobs, Prefix(jobs, |jobs|), a);
  }

  /** The same for whole windows. */
  lemma SequentialDelivers(mem0: Block, jobs: seq<Job>, k: nat)
    requires JobsOk(jobs, |mem0|) && k < |jobs|
    ensures Window(Sequential(mem0, jobs), jobs[k].dst, |jobs[k].src|) == jobs[k].src
  {
    var m := Sequential(mem0, jobs);
    forall i | 0 <= i < |jobs[k].src| ensures m[jobs[k].dst + i] == jobs[k].src[i] {
      SequentialByteIn(mem0, jobs, k, i);
    }
    WindowIs(m, jobs[k].dst, jobs[k].src);
  }

  lemma {:induction false} WindowIs(m: Block, at: nat, b: Block)
    requires at + |b| <= |m| && forall i :: 0 <= i < |b| ==> m[at + i] == b[i]
    ensures Window(m, at, |b|) == b
  {
    forall i | 0 <= i < |b| ensures Window(m, at, |b|)[i] == b[i] {
      assert Window(m, at, |b|)[i] == m[at + i];
    }
  }

  lemma SequentialLeaves(mem0: Block, jobs: seq<Job>, at: nat, n: nat)
    requires JobsOk(jobs, |mem0|) && at + n <= |mem0|
    requires forall k :: 0 <= k < |jobs| ==> Disjoint(jobs[k].dst, |jobs[k].src|, at, n)
    ensures Window(Sequential(mem0, jobs), at, n) == Window(mem0, at, n)
  {
    forall a | at <= a < at + n ensures Sequential(mem0, jobs)[a] == mem0[a] {
      SequentialByteOut(mem0, jobs, a);
    }
  }
}
