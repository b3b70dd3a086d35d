/** Byte memory and its view as an array of equally sized places. */
module Memory {
  import opened Arithmetic

  type Byte = x: int | 0 <= x < 256

  /** The bytes of one expert's weight in one role, or of any other contiguous read. */
  type Block = seq<Byte>

  const ROLES: nat := 3   // gate, up, down

  function Blit<T>(m: seq<T>, at: nat, b: seq<T>): (r: seq<T>)
    requires at + |b| <= |m|
    ensures |r| == |m|
  {
    m[..at] + b + m[at + |b|..]
  }

  function Window<T>(m: seq<T>, at: nat, n: nat): (r: seq<T>)
    requires at + n <= |m|
    ensures |r| == n
  {
    m[at..at + n]
  }

  predicate Disjoint(a: nat, n: nat, b: nat, k: nat) {
    a + n <= b || b + k <= a
  }

  /** A write is read back, and leaves disjoint windows alone. */
  lemma BlitWindow<T>(m: seq<T>, at: nat, b: seq<T>)
    requires at + |b| <= |m|
    ensures Window(Blit(m, at, b), at, |b|) == b
    ensures forall lo: nat, n: nat :: lo + n <= |m| && Disjoint(at, |b|, lo, n) ==>
      Window(Blit(m, at, b), lo, n) == Window(m, lo, n)
  {
    var r := Blit(m, at, b);
    forall lo: nat, n: nat | lo + n <= |m| && Disjoint(at, |b|, lo, n) ensures Window(r, lo, n) == Window(m, lo, n) {
      assert forall k :: lo <= k < lo + n ==> r[k] == m[k];
    }
  }

  /** Place i of width w ends within n places. */
  lemma {:induction false} PlaceFits(i: nat, n: nat, w: nat)
    requires i < n
    ensures i * w + w <= n * w
  {
    ProductGap(i, n, w);
  }

  /** Different places of width w are disjoint. */
  lemma {:induction false} PlacesDisjoint(i: nat, j: nat, w: nat)
    requires i != j
    ensures Disjoint(i * w, w, j * w, w)
  {
    if i < j { PlaceFits(i, j, w); } else { PlaceFits(j, i, w); }
  }

  /** Consecutive layers use different buffers when there are two or more. */
  lemma {:induction false} NextDiffers(il: int, n: int)
    requires n >= 2
    ensures (il + 1) % n != il % n
  {
    var q, r := il / n, il % n;
    DivisionParts(il, n);
    if r + 1 < n {
      RemainderUnique(il + 1, q, r + 1, n);
    } else {
      ProductNext(q, n);
      RemainderUnique(il + 1, q + 1, 0, n);
    }
  }
}
