/** The dense arena: whole layers streamed through nbuf buffers, the next one read in the
    background while the current one is computed on. */
module DenseArena {
  import opened Arithmetic
  import opened Seqs
  import opened Memory
  import ParallelReads

  // ---------------------------------------------------------------------------
  // One read, cut into a chunk per thread
  // ---------------------------------------------------------------------------

  /** ceil(bytes / nth) */
  function Chunk(bytes: nat, nth: nat): nat
    requires nth > 0
  {
    (bytes + nth - 1) / nth
  }

  /** Start and length of thread i's chunk; threads whose chunk would start past the end are
      never started. */
  datatype Piece = Piece(beg: nat, len: nat)

  function PieceOf(bytes: nat, chunk: nat, i: nat): Piece {
    var beg := i * chunk;
    Piece(beg, if beg >= bytes then 0 else if chunk <= bytes - beg then chunk else bytes - beg)
  }

  /** The pieces cover [0, bytes) without gap or overlap: every byte is in exactly one. */
  ghost predicate Tiles(pieces: seq<Piece>, bytes: nat) {
    && (forall i :: 0 <= i < |pieces| ==> pieces[i].len > 0 && pieces[i].beg + pieces[i].len <= bytes)
    && (forall i, j :: 0 <= i < j < |pieces| ==> pieces[i].beg + pieces[i].len <= pieces[j].beg)
    && (forall a :: 0 <= a < bytes ==> InPiece(pieces, a))
  }

  ghost predicate InPiece(pieces: seq<Piece>, a: nat) {
    exists i :: 0 <= i < |pieces| && pieces[i].beg <= a < pieces[i].beg + pieces[i].len
  }

  lemma {:induction false} ChunkCovers(bytes: nat, nth: nat)
    requires nth > 0
    ensures bytes <= nth * Chunk(bytes, nth)
    ensures bytes > 0 ==> Chunk(bytes, nth) > 0
  {
    DivisionParts(bytes + nth - 1, nth);
    if bytes > 0 { QuotientLe(1, bytes - 1, Chunk(bytes, nth), (bytes + nth - 1) % nth, nth); }
  }

  /** The pieces the started threads read: one each until one would start past the end. */
  method Split(bytes: nat, nth: nat, chunk: nat) returns (pieces: seq<Piece>)
    requires nth > 0 && bytes <= nth * chunk && (bytes > 0 ==> chunk > 0)
    ensures Tiles(pieces, bytes) && |pieces| <= nth
  {
    pieces := [];
    var i := 0;
    while i < nth
      invariant 0 <= i <= nth && |pieces| == i
      invariant forall k :: 0 <= k < i ==> pieces[k] == PieceOf(bytes, chunk, k) && k * chunk < bytes
      invariant TilesTo(pieces, bytes, i * chunk)
    {
      var beg := i * chunk;
      if beg >= bytes {
        return;
      }
      var len := if chunk <= bytes - beg then chunk else bytes - beg;
      ProductNext(i, chunk);
      TilesNext(pieces, bytes, beg, len, chunk);
      pieces := pieces + [Piece(beg, len)];
      i := i + 1;
    }
  }

  /** The pieces cover [0, end) as far as that is within the read. */
  ghost predicate TilesTo(pieces: seq<Piece>, bytes: nat, end: nat) {
    && (forall i :: 0 <= i < |pieces| ==> pieces[i].len > 0 && pieces[i].beg + pieces[i].len <= bytes && pieces[i].beg + pieces[i].len <= end)
    && (forall i, j :: 0 <= i < j < |pieces| ==> pieces[i].beg + pieces[i].len <= pieces[j].beg)
    && (forall a :: 0 <= a < bytes && a < end ==> InPiece(pieces, a))
  }

  lemma TilesNext(pieces: seq<Piece>, bytes: nat, beg: nat, len: nat, chunk: nat)
    requires TilesTo(pieces, bytes, beg) && beg < bytes && chunk > 0
    requires len == (if chunk <= bytes - beg then chunk else bytes - beg)
    ensures TilesTo(pieces + [Piece(beg, len)], bytes, beg + chunk)
  {
    var more := pieces + [Piece(beg, len)];
    forall a | 0 <= a < bytes && a < beg + chunk ensures InPiece(more, a) {
      if a < beg {
        assert InPiece(pieces, a);
        var i :| 0 <= i < |pieces| && pieces[i].beg <= a < pieces[i].beg + pieces[i].len;
        assert more[i] == pieces[i];
      } else {
        assert more[|pieces|] == Piece(beg, len);
      }
    }
  }

  /** One thread's job in a read of src to address dst. */
  predicate IsPieceJob(j: ParallelReads.Job, p: Piece, dst: nat, src: Block) {
    p.beg + p.len <= |src| && j.dst == dst + p.beg && j.src == src[p.beg..p.beg + p.len]
  }

  /** jobs are the threads' jobs, one per piece. */
  ghost predicate PieceJobs(jobs: seq<ParallelReads.Job>, pieces: seq<Piece>, dst: nat, src: Block) {
    |jobs| == |pieces| && forall i :: 0 <= i < |jobs| ==> IsPieceJob(jobs[i], pieces[i], dst, src)
  }

  lemma PieceJobsOk(jobs: seq<ParallelReads.Job>, pieces: seq<Piece>, dst: nat, src: Block, size: nat)
    requires Tiles(pieces, |src|) && dst + |src| <= size && PieceJobs(jobs, pieces, dst, src)
    ensures ParallelReads.JobsOk(jobs, size)
  {
    forall k | 0 <= k < |jobs| ensures jobs[k].dst + |jobs[k].src| <= size {
      assert IsPieceJob(jobs[k], pieces[k], dst, src);
    }
    forall j, k | 0 <= j < k < |jobs| ensures Disjoint(jobs[j].dst, |jobs[j].src|, jobs[k].dst, |jobs[k].src|) {
      assert IsPieceJob(jobs[j], pieces[j], dst, src) && IsPieceJob(jobs[k], pieces[k], dst, src);
    }
  }

  lemma {:induction false} ByteInPiece(mem0: Block, jobs: seq<ParallelReads.Job>, p: Piece, i: nat, dst: nat, src: Block, a: nat)
    requires ParallelReads.JobsOk(jobs, |mem0|) && i < |jobs| && IsPieceJob(jobs[i], p, dst, src)
    requires dst + p.beg <= a < dst + p.beg + p.len
    ensures a < |mem0| && a - dst < |src| && ParallelReads.Sequential(mem0, jobs)[a] == src[a - dst]
  {
    ParallelReads.SequentialByteIn(mem0, jobs, i, a - jobs[i].dst);
  }

  lemma ByteOutside(mem0: Block, jobs: seq<ParallelReads.Job>, pieces: seq<Piece>, dst: nat, src: Block, a: nat)
    requires PieceJobs(jobs, pieces, dst, src) && a < |mem0| && !(dst <= a < dst + |src|)
    requires ParallelReads.JobsOk(jobs, |mem0|)
    ensures ParallelReads.Sequential(mem0, jobs)[a] == mem0[a]
  {
    forall k | 0 <= k < |jobs| ensures Disjoint(jobs[k].dst, |jobs[k].src|, a, 1) {
      assert IsPieceJob(jobs[k], pieces[k], dst, src);
    }
    ParallelReads.SequentialByteOut(mem0, jobs, a);
  }

  lemma ByteInside(mem0: Block, jobs: seq<ParallelReads.Job>, pieces: seq<Piece>, dst: nat, src: Block, a: nat)
    requires Tiles(pieces, |src|) && PieceJobs(jobs, pieces, dst, src) && dst <= a < dst + |src|
    requires ParallelReads.JobsOk(jobs, |mem0|)
    ensures a < |mem0| && ParallelReads.Sequential(mem0, jobs)[a] == src[a - dst]
  {
    assert InPiece(pieces, a - dst);
    var i :| 0 <= i < |pieces| && pieces[i].beg <= a - dst < pieces[i].beg + pieces[i].len;
    ByteInPiece(mem0, jobs, pieces[i], i, dst, src, a);
  }

  lemma {:induction false} BlitByte(mem0: Block, dst: nat, src: Block, a: nat)
    requires dst + |src| <= |mem0| && a < |mem0|
    ensures Blit(mem0, dst, src)[a] == (if dst <= a < dst + |src| then src[a - dst] else mem0[a])
  {
  }

  lemma {:induction false} SequentialByte(mem0: Block, jobs: seq<ParallelReads.Job>, pieces: seq<Piece>, dst: nat,
                                          src: Block, a: nat)
    requires Tiles(pieces, |src|) && PieceJobs(jobs, pieces, dst, src) && dst + |src| <= |mem0| && a < |mem0|
    requires ParallelReads.JobsOk(jobs, |mem0|)
    ensures ParallelReads.Sequential(mem0, jobs)[a] == Blit(mem0, dst, src)[a]
  {
    BlitByte(mem0, dst, src, a);
    if dst <= a < dst + |src| {
      ByteInside(mem0, jobs, pieces, dst, src, a);
    } else {
      ByteOutside(mem0, jobs, pieces, dst, src, a);
    }
  }

  lemma {:induction false} SequentialIsBlit(mem0: Block, jobs: seq<ParallelReads.Job>, pieces: seq<Piece>, dst: nat, src: Block)
    requires Tiles(pieces, |src|) && PieceJobs(jobs, pieces, dst, src) && dst + |src| <= |mem0|
    requires ParallelReads.JobsOk(jobs, |mem0|)
    ensures ParallelReads.Sequential(mem0, jobs) == Blit(mem0, dst, src)
  {
    var m, t := ParallelReads.Sequential(mem0, jobs), Blit(mem0, dst, src);
    forall a | 0 <= a < |mem0| ensures m[a] == t[a] {
      SequentialByte(mem0, jobs, pieces, dst, src, a);
    }
  }

  /** Whatever the interleaving of the threads, the chunked read delivers exactly the file's
      bytes, and nothing outside the destination changes. */
  lemma ChunkedReadExact(run: seq<ParallelReads.Pool>, evs: seq<ParallelReads.Event>, mem0: Block,
                         jobs: seq<ParallelReads.Job>, pieces: seq<Piece>, dst: nat, src: Block)
    requires Tiles(pieces, |src|) && dst + |src| <= |mem0| && PieceJobs(jobs, pieces, dst, src)
    requires ParallelReads.IsRun(run, evs, jobs)
    requires ParallelReads.Init(run[0], mem0, jobs) && ParallelReads.AllFinished(run[|run| - 1])
    ensures run[|run| - 1].mem == Blit(mem0, dst, src)
  {
    PieceJobsOk(jobs, pieces, dst, src, |mem0|);
    ParallelReads.JoinedIsSequential(run, evs, mem0, jobs);
    SequentialIsBlit(mem0, jobs, pieces, dst, src);
  }

  method JobsOf(pieces: seq<Piece>, dst: nat, src: Block) returns (jobs: seq<ParallelReads.Job>)
    requires forall i :: 0 <= i < |pieces| ==> pieces[i].beg + pieces[i].len <= |src|
    ensures PieceJobs(jobs, pieces, dst, src)
  {
    jobs := seq(|pieces|, i requires 0 <= i < |pieces| =>
      ParallelReads.Job(dst + pieces[i].beg, src[pieces[i].beg..pieces[i].beg + pieces[i].len]));
  }

  /** dense_read_range: with one thread a single read, else a chunk per thread. */
  method ReadRange(mem0: Block, dst: nat, src: Block, nth: nat) returns (mem: Block)
    requires dst + |src| <= |mem0|
    ensures mem == Blit(mem0, dst, src)
  {
    if nth <= 1 {
      return Blit(mem0, dst, src);
    }
    ChunkCovers(|src|, nth);
    var pieces := Split(|src|, nth, Chunk(|src|, nth));
    var jobs := JobsOf(pieces, dst, src);
    PieceJobsOk(jobs, pieces, dst, src, |mem0|);
    SequentialIsBlit(mem0, jobs, pieces, dst, src);
    mem := ParallelReads.Sequential(mem0, jobs);
  }
}
