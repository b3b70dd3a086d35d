/** dense_load_layer as the program runs it: nothing to do when the layer is resident or has no
    recorded weights, else every weight read to its place and the buffer marked. */
module DenseLoader {
  import opened Memory
  import opened DenseProtocol
  import DenseArena

  class DenseBuffers {
    const nbuf: nat
    var bufs: seq<Buffer>

    /** nbuf buffers of size bytes, holding no layer. */
    constructor (nbuf: nat, size: nat)
      requires nbuf >= 1
      ensures this.nbuf == nbuf && bufs == seq(nbuf, _ => Buffer(seq(size, _ => 0), -1))
    {
      this.nbuf := nbuf;
      bufs := seq(nbuf, _ => Buffer(seq(size, _ => 0), -1));
    }

    /** Afterwards the layer's buffer holds all its weights, unless it was taken to hold them
        already or none are recorded; other buffers are untouched. */
    method LoadLayer(il: int, layers: map<int, Weights>, nth: nat) returns (loaded: bool)
      requires 1 <= nbuf == |bufs|
      requires il in layers ==> At(layers[il], |layers[il]|) <= |bufs[il % nbuf].mem|
      modifies this
      ensures loaded <==> old(bufs[il % nbuf].resident) != il && il in layers
      ensures !loaded ==> bufs == old(bufs)
      ensures |bufs| == old(|bufs|) && forall b :: 0 <= b < |bufs| && b != il % nbuf ==> bufs[b] == old(bufs[b])
      ensures loaded ==>
        var b := bufs[il % nbuf];
        b.resident == il && |b.mem| == old(|bufs[il % nbuf].mem|) && Filled(layers[il], b.mem, |layers[il]|)
    {
      var bi := il % nbuf;
      loaded := bufs[bi].resident != il && il in layers;
      if loaded {
        var mem := ReadWeights(layers[il], bufs[bi].mem, nth);
        bufs := bufs[bi := Buffer(mem, il)];
      }
    }
  }

  method ReadWeights(w: Weights, mem0: Block, nth: nat) returns (mem: Block)
    requires At(w, |w|) <= |mem0|
    ensures |mem| == |mem0| && Filled(w, mem, |w|)
  {
    mem := mem0;
    var r := 0;
    while r < |w|
      invariant 0 <= r <= |w| && |mem| == |mem0| && Filled(w, mem, r)
    {
      FillNext(w, mem, r);
      mem := DenseArena.ReadRange(mem, At(w, r), w[r], nth);
      r := r + 1;
    }
  }
}
