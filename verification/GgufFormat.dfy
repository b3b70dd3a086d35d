/** Metadata values of a GGUF file and their encoding ("File Structure" of the GGUF
    specification): little-endian numbers, length-prefixed strings, counted arrays that nest. */
module GgufFormat {
  import opened Memory

  const UINT32: nat := 4
  const FLOAT32: nat := 6
  const BOOL: nat := 7
  const STRING: nat := 8
  const ARRAY: nat := 9
  const UINT64: nat := 10
  const FLOAT64: nat := 12

  const TWO32: int := 0x1_0000_0000
  const TWO63: int := 0x8000_0000_0000_0000
  const TWO64: int := 0x1_0000_0000_0000_0000

  datatype Value =
    | Num(t: nat, x: int)
    | Raw(t: nat, bytes: seq<Byte>)
    | Str(s: seq<Byte>)
    | Arr(et: nat, elems: Values)

  datatype Values = End | More(head: Value, tail: Values)

  datatype Entry = Entry(key: seq<Byte>, value: Value)

  function Count(vs: Values): nat {
    match vs
    case End => 0
    case More(_, tail) => 1 + Count(tail)
  }

  /** Bytes of a fixed-size type. */
  function Fixed(t: nat): nat {
    if t in {0, 1, BOOL} then 1
    else if t in {2, 3} then 2
    else if t in {UINT32, 5, FLOAT32} then 4
    else if t in {UINT64, 11, FLOAT64} then 8
    else 0
  }

  predicate Signed(t: nat) { t in {1, 3, 5, 11} }

  predicate Integer(t: nat) { t in {0, 1, 2, 3, UINT32, 5, UINT64, 11} }

  function Modulus(w: nat): (m: nat)
    ensures m > 0
  {
    if w == 0 then 1 else 256 * Modulus(w - 1)
  }

  function TypeOf(v: Value): nat {
    match v
    case Num(t, _) => t
    case Raw(t, _) => t
    case Str(_) => STRING
    case Arr(_, _) => ARRAY
  }

  /** The numbers a type can hold. */
  predicate InType(t: nat, x: int) {
    var m: int := Modulus(Fixed(t));
    if Signed(t) then -m <= 2 * x < m else 0 <= x < m
  }

  predicate WellFormed(v: Value)
    decreases v
  {
    match v
    case Num(t, x) => Integer(t) && InType(t, x)
    case Raw(t, bytes) => t in {FLOAT32, BOOL, FLOAT64} && |bytes| == Fixed(t)
    case Str(s) => |s| < TWO63
    case Arr(et, elems) => et <= FLOAT64 && Count(elems) < TWO64 && AllOf(et, elems)
  }

  predicate AllOf(et: nat, vs: Values)
    decreases vs
  {
    match vs
    case End => true
    case More(head, tail) => TypeOf(head) == et && WellFormed(head) && AllOf(et, tail)
  }

  /** x in w bytes, lowest first. */
  function Little(x: nat, w: nat): (s: seq<Byte>)
    ensures |s| == w
  {
    if w == 0 then [] else [x % 256] + Little(x / 256, w - 1)
  }

  function Number(s: seq<Byte>): nat {
    if |s| == 0 then 0 else s[0] + 256 * Number(s[1..])
  }

  function Encode(v: Value): seq<Byte> {
    match v
    case Num(t, x) => Little(x % Modulus(Fixed(t)), Fixed(t))
    case Raw(_, bytes) => bytes
    case Str(s) => Little(|s|, 8) + s
    case Arr(et, elems) => Little(et, 4) + (Little(Count(elems), 8) + EncodeAll(elems))
  }

  function EncodeAll(vs: Values): seq<Byte> {
    match vs
    case End => []
    case More(head, tail) => Encode(head) + EncodeAll(tail)
  }

  function EncodeEntry(e: Entry): seq<Byte> {
    Little(|e.key|, 8) + (e.key + (Little(TypeOf(e.value), 4) + Encode(e.value)))
  }

  function EncodeEntries(es: seq<Entry>): seq<Byte> {
    if |es| == 0 then [] else EncodeEntry(es[0]) + EncodeEntries(es[1..])
  }

  /** "GGUF" */
  const MAGIC: seq<Byte> := [0x47, 0x47, 0x55, 0x46]

  /** A file: header, entries, and whatever follows them. */
  function EncodeFile(version: nat, nTensor: nat, es: seq<Entry>, rest: seq<Byte>): seq<Byte> {
    MAGIC + (Little(version, 4) + (Little(nTensor, 8) + (Little(|es|, 8) + (EncodeEntries(es) + rest))))
  }

  predicate EntryOk(e: Entry) { |e.key| < TWO64 && WellFormed(e.value) }

  predicate EntriesOk(es: seq<Entry>) {
    |es| > 0 ==> EntryOk(es[0]) && EntriesOk(es[1..])
  }

  /** The sizes of the thirteen types, strings and arrays having none. */
  lemma {:induction false} Widths()
    ensures seq(13, (t: nat) => Fixed(t)) == [1, 1, 2, 2, 4, 4, 4, 1, 0, 0, 8, 8, 8]
  {
  }

  // ---------------------------------------------------------------------------
  // Numbers
  // ---------------------------------------------------------------------------

  /** Little and Number are inverse. */
  lemma {:induction false} LittleNumber(x: nat, w: nat)
    requires x < Modulus(w)
    ensures Number(Little(x, w)) == x
  {
    if w > 0 {
      Below(x, Modulus(w - 1));
      LittleNumber(x / 256, w - 1);
      assert Little(x, w)[1..] == Little(x / 256, w - 1);
    }
  }

  lemma {:induction false} Below(x: nat, m: nat)
    requires x < 256 * m
    ensures x / 256 < m
  {
  }

  lemma {:induction false} Moduli()
    ensures Modulus(1) == 256 && Modulus(2) == 0x1_0000 && Modulus(4) == TWO32 && Modulus(8) == TWO64
  {
    assert Modulus(3) == 0x100_0000;
    assert Modulus(5) == 0x100_0000_0000;
    assert Modulus(6) == 0x1_0000_0000_0000;
    assert Modulus(7) == 0x100_0000_0000_0000;
  }
}
