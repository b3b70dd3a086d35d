/** Finding one integer in the metadata by key suffix: a cursor over the file, a recursive
    skip over values, and a scan over the entries. */
module GgufReader {
  import opened Arithmetic
  import opened Seqs
  import opened Memory
  import opened GgufFormat

  const MAX_KEY: nat := 0x10_0000
  const MAX_RESULT: nat := 4096

  /** w bytes at pos as a number; None past the end. */
  function NumberAt(b: seq<Byte>, pos: nat, w: nat): Option<nat> {
    if pos + w <= |b| then Some(Number(b[pos..pos + w])) else None
  }

  function Left(b: seq<Byte>, pos: nat): nat {
    if pos <= |b| then |b| - pos else 0
  }

  /** Where a value of type t at pos ends; None if it cannot be skipped. Seeking past the end
      of the file succeeds; a string length of 2^63 or more is taken as a failed seek. */
  function SkipTo(b: seq<Byte>, pos: nat, t: nat): (r: Option<nat>)
    ensures r.Some? ==> r.value > pos
    decreases Left(b, pos), 0, 0
  {
    if t == STRING then
      match NumberAt(b, pos, 8)
      case None => None
      case Some(n) => if n < TWO63 then Some(pos + 8 + n) else None
    else if t == ARRAY then
      match (NumberAt(b, pos, 4), NumberAt(b, pos + 4, 8))
      case (Some(et), Some(n)) => SkipAll(b, pos + 12, et, n)
      case _ => None
    else if t > FLOAT64 then None
    else if pos + Fixed(t) <= |b| then Some(pos + Fixed(t))
    else None
  }

  /** Where n values of type et at pos end. */
  function SkipAll(b: seq<Byte>, pos: nat, et: nat, n: nat): (r: Option<nat>)
    ensures r.Some? ==> r.value >= pos
    decreases Left(b, pos), 1, n
  {
    if n == 0 then Some(pos)
    else
      match SkipTo(b, pos, et)
      case None => None
      case Some(p) => SkipAll(b, p, et, n - 1)
  }

  /** The int64 a value is read as; 0 for anything that is not an integer. */
  function Extract(t: nat, s: seq<Byte>): int {
    var x := Number(s);
    if !Integer(t) then 0
    else if (Signed(t) || t == UINT64) && 2 * x >= Modulus(Fixed(t)) then x - Modulus(Fixed(t))
    else x
  }

  function IntAt(b: seq<Byte>, pos: nat, t: nat): int {
    if pos + Fixed(t) <= |b| then Extract(t, b[pos..pos + Fixed(t)]) else 0
  }

  predicate EndsWith(key: seq<Byte>, suf: seq<Byte>) {
    |key| >= |suf| && key[|key| - |suf|..] == suf
  }

  predicate InRange(v: int) { 0 < v < MAX_RESULT }

  /** An entry as the scan sees it: its key, its value as an int64, and where it ends. */
  datatype Seen = Seen(key: seq<Byte>, v: int, next: nat)

  /** The entry at pos; None if it cannot be read or its key is too long. */
  function EntryAt(b: seq<Byte>, pos: nat): Option<Seen> {
    match NumberAt(b, pos, 8)
    case None => None
    case Some(k) =>
      if k > MAX_KEY || pos + 8 + k > |b| then None
      else
        match NumberAt(b, pos + 8 + k, 4)
        case None => None
        case Some(t) =>
          match SkipTo(b, pos + 12 + k, t)
          case None => None
          case Some(next) => Some(Seen(b[pos + 8..pos + 8 + k], IntAt(b, pos + 12 + k, t), next))
  }

  /** The scan over n entries at pos. */
  function Scan(b: seq<Byte>, pos: nat, n: nat, suf: seq<Byte>): nat
    decreases n
  {
    if n == 0 then 0
    else
      match EntryAt(b, pos)
      case None => 0
      case Some(e) => if EndsWith(e.key, suf) && InRange(e.v) then e.v else Scan(b, e.next, n - 1, suf)
  }

  /** The whole lookup. */
  function Lookup(b: seq<Byte>, suf: seq<Byte>): nat {
    if |b| < 24 || b[..4] != MAGIC then 0 else Scan(b, 24, Number(b[16..24]), suf)
  }

  // ---------------------------------------------------------------------------
  // Slices of a file
  // ---------------------------------------------------------------------------

  /** s stands at pos. */
  predicate At(b: seq<Byte>, pos: nat, s: seq<Byte>) {
    pos + |s| <= |b| && b[pos..pos + |s|] == s
  }

  lemma {:induction false} AtSplit(b: seq<Byte>, pos: nat, s: seq<Byte>, t: seq<Byte>)
    requires At(b, pos, s + t)
    ensures At(b, pos, s) && At(b, pos + |s|, t)
  {
    var st := b[pos..pos + |s + t|];
    assert b[pos..pos + |s|] == st[..|s|] && b[pos + |s|..pos + |s| + |t|] == st[|s|..];
  }

  lemma {:induction false} AtNumber(b: seq<Byte>, pos: nat, x: nat, w: nat)
    requires x < Modulus(w) && At(b, pos, Little(x, w))
    ensures NumberAt(b, pos, w) == Some(x)
  {
    LittleNumber(x, w);
  }

  // ---------------------------------------------------------------------------
  // Skipping is exact
  // ---------------------------------------------------------------------------

  /** A value is skipped exactly, however deep it nests. */
  lemma {:induction false} SkipExact(b: seq<Byte>, pos: nat, v: Value)
    requires WellFormed(v) && At(b, pos, Encode(v))
    ensures SkipTo(b, pos, TypeOf(v)) == Some(pos + |Encode(v)|)
    decreases v
  {
    Moduli();
    match v
    case Num(t, x) =>
    case Raw(t, bytes) =>
    case Str(s) =>
      AtSplit(b, pos, Little(|s|, 8), s);
      AtNumber(b, pos, |s|, 8);
    case Arr(et, elems) =>
      AtSplit(b, pos, Little(et, 4), Little(Count(elems), 8) + EncodeAll(elems));
      AtSplit(b, pos + 4, Little(Count(elems), 8), EncodeAll(elems));
      AtNumber(b, pos, et, 4);
      AtNumber(b, pos + 4, Count(elems), 8);
      SkipAllExact(b, pos + 12, et, elems);
  }

  lemma {:induction false} SkipAllExact(b: seq<Byte>, pos: nat, et: nat, vs: Values)
    requires AllOf(et, vs) && At(b, pos, EncodeAll(vs))
    ensures SkipAll(b, pos, et, Count(vs)) == Some(pos + |EncodeAll(vs)|)
    decreases vs
  {
    match vs
    case End =>
    case More(head, tail) =>
      AtSplit(b, pos, Encode(head), EncodeAll(tail));
      SkipExact(b, pos, head);
      SkipAllExact(b, pos + |Encode(head)|, et, tail);
  }

  /** What cannot be skipped: a type there is none of, and values the file ends within. */
  lemma {:induction false} SkipLimits(b: seq<Byte>, pos: nat, t: nat)
    ensures t > 12 ==> SkipTo(b, pos, t) == None
    ensures t == 8 ==> (SkipTo(b, pos, t).Some? <==> pos + 8 <= |b| && Number(b[pos..pos + 8]) < 0x8000_0000_0000_0000)
    ensures t == 9 && SkipTo(b, pos, t).Some? ==> pos + 12 <= |b|
    ensures t <= 12 && t != 8 && t != 9 ==>
      SkipTo(b, pos, t) == if pos + Fixed(t) <= |b| then Some(pos + Fixed(t)) else None
  {
  }

  /** What an entry's value counts as. */
  function IntOf(v: Value): int {
    if v.Num? then (if v.t == UINT64 && v.x >= TWO63 then v.x - TWO64 else v.x) else 0
  }

  /** Numbers come back as they were written, in every width and sign. */
  lemma {:induction false} ReadBack(b: seq<Byte>, pos: nat, v: Value)
    requires WellFormed(v) && At(b, pos, Encode(v))
    ensures IntAt(b, pos, TypeOf(v)) == IntOf(v)
  {
    if v.Num? {
      var m := Modulus(Fixed(v.t));
      Moduli();
      Wrapped(v.x, m);
      LittleNumber(v.x % m, Fixed(v.t));
    }
  }

  lemma {:induction false} Wrapped(x: int, m: nat)
    requires m > 0 && 0 <= x + m && x < m
    ensures x % m == (if x >= 0 then x else x + m)
  {
    if x >= 0 { RemainderUnique(x, 0, x, m); } else { RemainderUnique(x, -1, x + m, m); }
  }

  // ---------------------------------------------------------------------------
  // The lookup on well-formed files
  // ---------------------------------------------------------------------------

  /** The entry the lookup is after. */
  predicate Matches(e: Entry, suf: seq<Byte>) {
    EndsWith(e.key, suf) && e.value.Num? && 1 <= e.value.x < MAX_RESULT
  }

  /** The first match before any over-long key, else 0. */
  function First(es: seq<Entry>, suf: seq<Byte>): nat {
    if |es| == 0 || |es[0].key| > MAX_KEY then 0
    else if Matches(es[0], suf) then es[0].value.x
    else First(es[1..], suf)
  }

  /** First is what it says. */
  lemma {:induction false} FirstIsFirst(es: seq<Entry>, suf: seq<Byte>, i: nat)
    requires i < |es| && Matches(es[i], suf)
    requires forall j :: 0 <= j <= i ==> |es[j].key| <= MAX_KEY
    requires forall j :: 0 <= j < i ==> !Matches(es[j], suf)
    ensures First(es, suf) == es[i].value.x
  {
    if i > 0 { FirstIsFirst(es[1..], suf, i - 1); }
  }

  lemma {:induction false} FirstIsNone(es: seq<Entry>, suf: seq<Byte>)
    requires forall j :: 0 <= j < |es| ==> !Matches(es[j], suf)
    ensures First(es, suf) == 0
  {
    if |es| > 0 { FirstIsNone(es[1..], suf); }
  }

  /** The key and what stands behind it. */
  lemma {:induction false} KeyParts(b: seq<Byte>, pos: nat, key: seq<Byte>, more: seq<Byte>)
    requires At(b, pos, Little(|key|, 8) + (key + more)) && |key| < TWO64
    ensures NumberAt(b, pos, 8) == Some(|key|) && pos + 8 + |key| <= |b|
    ensures b[pos + 8..pos + 8 + |key|] == key && At(b, pos + 8 + |key|, more)
  {
    Moduli();
    AtSplit(b, pos, Little(|key|, 8), key + more);
    AtSplit(b, pos + 8, key, more);
    AtNumber(b, pos, |key|, 8);
  }

  /** The type and the value. */
  lemma {:induction false} ValueParts(b: seq<Byte>, pos: nat, v: Value)
    requires At(b, pos, Little(TypeOf(v), 4) + Encode(v)) && WellFormed(v)
    ensures NumberAt(b, pos, 4) == Some(TypeOf(v)) && At(b, pos + 4, Encode(v))
  {
    Moduli();
    AtSplit(b, pos, Little(TypeOf(v), 4), Encode(v));
    AtNumber(b, pos, TypeOf(v), 4);
  }

  lemma {:induction false} EntryParts(b: seq<Byte>, pos: nat, e: Entry)
    requires At(b, pos, EncodeEntry(e)) && EntryOk(e)
    ensures var k := |e.key|;
      && NumberAt(b, pos, 8) == Some(k) && pos + 8 + k <= |b| && b[pos + 8..pos + 8 + k] == e.key
      && NumberAt(b, pos + 8 + k, 4) == Some(TypeOf(e.value)) && At(b, pos + 12 + k, Encode(e.value))
      && |EncodeEntry(e)| == 12 + k + |Encode(e.value)|
  {
    KeyParts(b, pos, e.key, Little(TypeOf(e.value), 4) + Encode(e.value));
    ValueParts(b, pos + 8 + |e.key|, e.value);
  }

  lemma {:induction false} EntryFrom(b: seq<Byte>, pos: nat, key: seq<Byte>, t: nat, v: int, next: nat)
    requires var k := |key|;
      && NumberAt(b, pos, 8) == Some(k) && pos + 8 + k <= |b| && b[pos + 8..pos + 8 + k] == key
      && NumberAt(b, pos + 8 + k, 4) == Some(t) && SkipTo(b, pos + 12 + k, t) == Some(next) && IntAt(b, pos + 12 + k, t) == v
    ensures EntryAt(b, pos) == if |key| > MAX_KEY then None else Some(Seen(key, v, next))
  {
  }

  /** An entry is read exactly, unless its key is too long. */
  lemma {:induction false} EntryExact(b: seq<Byte>, pos: nat, e: Entry)
    requires At(b, pos, EncodeEntry(e)) && EntryOk(e)
    ensures EntryAt(b, pos) ==
      if |e.key| > MAX_KEY then None else Some(Seen(e.key, IntOf(e.value), pos + |EncodeEntry(e)|))
  {
    var size := EntrySize(b, pos, e);
    EntryFrom(b, pos, e.key, TypeOf(e.value), IntOf(e.value), pos + size);
  }

  /** The parts of an entry, without its encoding. */
  lemma {:induction false} EntrySize(b: seq<Byte>, pos: nat, e: Entry) returns (size: nat)
    requires At(b, pos, EncodeEntry(e)) && EntryOk(e)
    ensures size == |EncodeEntry(e)|
    ensures var k := |e.key|;
      && NumberAt(b, pos, 8) == Some(k) && pos + 8 + k <= |b| && b[pos + 8..pos + 8 + k] == e.key
      && NumberAt(b, pos + 8 + k, 4) == Some(TypeOf(e.value))
      && SkipTo(b, pos + 12 + k, TypeOf(e.value)) == Some(pos + size) && IntAt(b, pos + 12 + k, TypeOf(e.value)) == IntOf(e.value)
  {
    EntryParts(b, pos, e);
    EntryValue(b, pos + 12 + |e.key|, e.value);
    size := |EncodeEntry(e)|;
  }

  lemma {:induction false} EntryValue(b: seq<Byte>, at: nat, v: Value)
    requires At(b, at, Encode(v)) && WellFormed(v)
    ensures SkipTo(b, at, TypeOf(v)) == Some(at + |Encode(v)|) && IntAt(b, at, TypeOf(v)) == IntOf(v)
  {
    SkipExact(b, at, v);
    ReadBack(b, at, v);
  }

  lemma {:induction false} InRangeIff(v: Value)
    requires WellFormed(v)
    ensures InRange(IntOf(v)) <==> v.Num? && 1 <= v.x < MAX_RESULT
    ensures InRange(IntOf(v)) ==> IntOf(v) == v.x
  {
    Moduli();
  }

  /** What reading entry e gives, if it ends at next. */
  function Expected(e: Entry, next: nat): Option<Seen> {
    if |e.key| > MAX_KEY then None else Some(Seen(e.key, IntOf(e.value), next))
  }

  /** The entries es are read one after the other from pos on, each ending where ends says. */
  ghost predicate Reads(b: seq<Byte>, pos: nat, es: seq<Entry>, ends: seq<nat>)
    decreases |es|
  {
    |ends| == |es|
    && (|es| > 0 ==> EntryAt(b, pos) == Expected(es[0], ends[0]) && Reads(b, ends[0], es[1..], ends[1..]))
  }

  lemma {:induction false} EntriesRead(b: seq<Byte>, pos: nat, es: seq<Entry>) returns (ends: seq<nat>)
    requires EntriesOk(es) && At(b, pos, EncodeEntries(es))
    ensures Reads(b, pos, es, ends)
    decreases |es|
  {
    ends := [];
    if |es| > 0 {
      var next := FirstRead(b, pos, es);
      ends := EntriesRead(b, next, es[1..]);
      assert ([next] + ends)[1..] == ends;
      ends := [next] + ends;
    }
  }

  lemma {:induction false} FirstRead(b: seq<Byte>, pos: nat, es: seq<Entry>) returns (next: nat)
    requires EntriesOk(es) && At(b, pos, EncodeEntries(es)) && |es| > 0
    ensures EntryAt(b, pos) == Expected(es[0], next) && At(b, next, EncodeEntries(es[1..]))
  {
    AtSplit(b, pos, EncodeEntry(es[0]), EncodeEntries(es[1..]));
    EntryExact(b, pos, es[0]);
    next := pos + |EncodeEntry(es[0])|;
  }

  /** Whatever the bytes, a scan of entries that are read as expected finds the first match. */
  lemma {:induction false} ScanReads(b: seq<Byte>, pos: nat, es: seq<Entry>, ends: seq<nat>, suf: seq<Byte>)
    requires Reads(b, pos, es, ends) && forall i :: 0 <= i < |es| ==> WellFormed(es[i].value)
    ensures Scan(b, pos, |es|, suf) == First(es, suf)
    decreases |es|
  {
    if |es| > 0 {
      InRangeIff(es[0].value);
      if |es[0].key| <= MAX_KEY { ScanReads(b, ends[0], es[1..], ends[1..], suf); }
    }
  }

  lemma {:induction false} AllWellFormed(es: seq<Entry>)
    requires EntriesOk(es)
    ensures forall i :: 0 <= i < |es| ==> WellFormed(es[i].value)
  {
    if |es| > 0 {
      AllWellFormed(es[1..]);
      forall i | 0 <= i < |es| ensures WellFormed(es[i].value) {
        if i > 0 { assert WellFormed(es[1..][i - 1].value); }
      }
    }
  }

  lemma {:induction false} ScanExact(b: seq<Byte>, pos: nat, es: seq<Entry>, suf: seq<Byte>)
    requires EntriesOk(es) && At(b, pos, EncodeEntries(es))
    ensures Scan(b, pos, |es|, suf) == First(es, suf)
  {
    var ends := EntriesRead(b, pos, es);
    AllWellFormed(es);
    ScanReads(b, pos, es, ends, suf);
  }

  /** On every well-formed file the lookup gives the first integer from 1 to 4095 whose key
      ends with suf, before any key longer than 2^20 bytes; and 0 if there is none. */
  lemma {:induction false} LookupExact(version: nat, nTensor: nat, es: seq<Entry>, rest: seq<Byte>, suf: seq<Byte>)
    requires EntriesOk(es) && |es| < TWO64
    ensures Lookup(EncodeFile(version, nTensor, es, rest), suf) == First(es, suf)
  {
    var b := EncodeFile(version, nTensor, es, rest);
    var tail := EncodeEntries(es) + rest;
    assert At(b, 0, MAGIC + (Little(version, 4) + (Little(nTensor, 8) + (Little(|es|, 8) + tail))));
    AtSplit(b, 0, MAGIC, Little(version, 4) + (Little(nTensor, 8) + (Little(|es|, 8) + tail)));
    AtSplit(b, 4, Little(version, 4), Little(nTensor, 8) + (Little(|es|, 8) + tail));
    AtSplit(b, 8, Little(nTensor, 8), Little(|es|, 8) + tail);
    AtSplit(b, 16, Little(|es|, 8), tail);
    AtSplit(b, 24, EncodeEntries(es), rest);
    Moduli();
    AtNumber(b, 16, |es|, 8);
    ScanExact(b, 24, es, suf);
  }

  // ---------------------------------------------------------------------------
  // The lookup, by how keys are put together
  // ---------------------------------------------------------------------------

  /** An integer from 1 to 4095 under a key that is something followed by suf. */
  ghost predicate Sought(e: Entry, suf: seq<Byte>) {
    (exists pre :: e.key == pre + suf) && e.value.Num? && 1 <= e.value.x <= 4095
  }

  lemma {:induction false} SoughtMatches(e: Entry, suf: seq<Byte>)
    ensures Sought(e, suf) <==> Matches(e, suf)
  {
    if EndsWith(e.key, suf) { assert e.key == e.key[..|e.key| - |suf|] + suf; }
    if pre :| e.key == pre + suf { assert e.key[|e.key| - |suf|..] == suf; }
  }

  /** The first entry sought, if no key before it is over 2^20 bytes long, is what every file
      that holds it answers. */
  lemma {:induction false} LookupFinds(version: nat, nTensor: nat, before: seq<Entry>, pre: seq<Byte>, suf: seq<Byte>,
                                       t: nat, x: int, after: seq<Entry>, rest: seq<Byte>)
    requires var es := before + [Entry(pre + suf, Num(t, x))] + after;
      EntriesOk(es) && |es| < TWO64
    requires 1 <= x <= 4095 && |pre + suf| <= 0x10_0000
    requires forall i :: 0 <= i < |before| ==> |before[i].key| <= 0x10_0000 && !Sought(before[i], suf)
    ensures Lookup(EncodeFile(version, nTensor, before + [Entry(pre + suf, Num(t, x))] + after, rest), suf) == x
  {
    var e := Entry(pre + suf, Num(t, x));
    var es := before + [e] + after;
    LookupExact(version, nTensor, es, rest, suf);
    assert e.key == pre + suf;
    SoughtMatches(e, suf);
    forall j | 0 <= j < |before| ensures !Matches(es[j], suf) { SoughtMatches(before[j], suf); }
    FirstIsFirst(es, suf, |before|);
  }

  /** A file in which whatever is sought comes behind a key of more than 2^20 bytes answers 0;
      so does one in which nothing is sought. */
  lemma {:induction false} LookupMisses(version: nat, nTensor: nat, es: seq<Entry>, rest: seq<Byte>, suf: seq<Byte>)
    requires EntriesOk(es) && |es| < TWO64
    requires forall j :: 0 <= j < |es| && Sought(es[j], suf) ==> exists i :: 0 <= i <= j && |es[i].key| > 0x10_0000
    ensures Lookup(EncodeFile(version, nTensor, es, rest), suf) == 0
  {
    LookupExact(version, nTensor, es, rest, suf);
    FirstMisses(es, suf);
  }

  lemma {:induction false} FirstMisses(es: seq<Entry>, suf: seq<Byte>)
    requires forall j :: 0 <= j < |es| && Sought(es[j], suf) ==> exists i :: 0 <= i <= j && |es[i].key| > 0x10_0000
    ensures First(es, suf) == 0
  {
    if |es| > 0 && |es[0].key| <= 0x10_0000 {
      SoughtMatches(es[0], suf);
      forall j | 0 <= j < |es[1..]| && Sought(es[1..][j], suf)
        ensures exists i :: 0 <= i <= j && |es[1..][i].key| > 0x10_0000
      {
        assert Sought(es[j + 1], suf);
        var i :| 0 <= i <= j + 1 && |es[i].key| > 0x10_0000;
        assert |es[1..][i - 1].key| > 0x10_0000;
      }
      FirstMisses(es[1..], suf);
    }
  }

  /** 42 bytes, a whole file: "GGUF", version 3, no tensors, one entry "ab" with the 32-bit unsigned
      number 10. Asked for keys that end with "b", the lookup answers 10. */
  lemma {:induction false} SampleFile()
    ensures Lookup([71, 71, 85, 70, 3, 0, 0, 0, 0, 0, 0, 0, 0, 0, 0, 0, 1, 0, 0, 0, 0, 0, 0, 0,
                    2, 0, 0, 0, 0, 0, 0, 0, 97, 98, 4, 0, 0, 0, 10, 0, 0, 0], [98]) == 10
  {
    SampleFound(3, 97, 98, 4, 10);
  }

  lemma {:induction false} SampleFound(version: Byte, a: Byte, b: Byte, t: Byte, x: Byte)
    requires t == 4 && x > 0
    ensures Lookup([71, 71, 85, 70, version, 0, 0, 0, 0, 0, 0, 0, 0, 0, 0, 0, 1, 0, 0, 0, 0, 0, 0, 0,
                    2, 0, 0, 0, 0, 0, 0, 0, a, b, t, 0, 0, 0, x, 0, 0, 0], [b]) == x
  {
    var e := Entry([a] + [b], Num(t, x));
    SampleEntry(e, a, b, t, x);
    SampleHeader(version, 0, e);
    SampleParts(version, a, b, t, x);
    SampleLookup(version, 0, e, a, b, t, x);
  }

  lemma {:induction false} SampleLookup(version: nat, nTensor: nat, e: Entry, a: Byte, b: Byte, t: nat, x: Byte)
    requires e == Entry([a] + [b], Num(t, x)) && t == 4 && x > 0
    ensures Lookup(EncodeFile(version, nTensor, [e], []), [b]) == x
  {
    Moduli();
    assert EntriesOk([e]) by { assert [e][1..] == []; }
    assert Sought(e, [b]);
    SoughtMatches(e, [b]);
    LookupExact(version, nTensor, [e], [], [b]);
    FirstIsFirst([e], [b], 0);
  }

  lemma {:induction false} SampleParts(version: Byte, a: Byte, b: Byte, t: Byte, x: Byte)
    ensures [71, 71, 85, 70] + ([version, 0, 0, 0] + ([0, 0, 0, 0, 0, 0, 0, 0] + ([1, 0, 0, 0, 0, 0, 0, 0] +
              ([2, 0, 0, 0, 0, 0, 0, 0] + [a, b] + [t, 0, 0, 0] + [x, 0, 0, 0])))) ==
            [71, 71, 85, 70, version, 0, 0, 0, 0, 0, 0, 0, 0, 0, 0, 0, 1, 0, 0, 0, 0, 0, 0, 0,
             2, 0, 0, 0, 0, 0, 0, 0, a, b, t, 0, 0, 0, x, 0, 0, 0]
  {
  }

  lemma {:induction false} SampleHeader(version: Byte, nTensor: Byte, e: Entry)
    ensures EncodeFile(version, nTensor, [e], []) ==
      [71, 71, 85, 70] + ([version, 0, 0, 0] + ([nTensor, 0, 0, 0, 0, 0, 0, 0] + ([1, 0, 0, 0, 0, 0, 0, 0] + EncodeEntry(e))))
  {
    var one: Byte := |[e]|;
    Word(version);
    Long(nTensor);
    Long(one);
    OneEntry(e);
  }

  lemma {:induction false} OneEntry(e: Entry)
    ensures EncodeEntries([e]) + [] == EncodeEntry(e)
  {
    assert EncodeEntries([e]) == EncodeEntry(e) + EncodeEntries([e][1..]);
  }

  lemma {:induction false} SampleEntry(e: Entry, a: Byte, b: Byte, t: Byte, x: Byte)
    requires e == Entry([a] + [b], Num(t, x)) && t == 4
    ensures EncodeEntry(e) == [2, 0, 0, 0, 0, 0, 0, 0] + [a, b] + [t, 0, 0, 0] + [x, 0, 0, 0]
  {
    var two: Byte := |e.key|;
    Long(two);
    Word(t);
    Word(x);
    Moduli();
    SmallRemainder(x, TWO32);
  }

  lemma {:induction false} Word(x: Byte)
    ensures Little(x, 4) == [x, 0, 0, 0]
  {
    SmallLittle(x, 4);
  }

  lemma {:induction false} Long(x: Byte)
    ensures Little(x, 8) == [x, 0, 0, 0, 0, 0, 0, 0]
  {
    SmallLittle(x, 8);
  }

  /** A number below 256 is its byte and zeros. */
  lemma {:induction false} SmallLittle(x: Byte, w: nat)
    requires w > 0
    ensures Little(x, w) == [x] + seq(w - 1, _ => 0)
  {
    ZeroLittle(w - 1);
  }

  lemma {:induction false} ZeroLittle(w: nat)
    ensures Little(0, w) == seq(w, _ => 0)
  {
    if w > 0 { ZeroLittle(w - 1); }
  }

  // ---------------------------------------------------------------------------
  // The reader
  // ---------------------------------------------------------------------------

  class Reader {
    const file: seq<Byte>
    var pos: nat

    constructor (file: seq<Byte>)
      ensures this.file == file && pos == 0
    {
      this.file := file;
      pos := 0;
    }

    /** n bytes at the cursor, or failure at the end of the file. */
    method Read(n: nat) returns (ok: bool, s: seq<Byte>)
      modifies this
      ensures ok <==> old(pos) + n <= |file|
      ensures ok ==> pos == old(pos) + n && s == file[old(pos)..pos]
      ensures !ok ==> pos == old(pos) + Left(file, old(pos))
    {
      ok, s := pos + n <= |file|, [];
      if ok {
        s := file[pos..pos + n];
        pos := pos + n;
      } else {
        pos := pos + Left(file, pos);
      }
    }

    method ReadNumber(w: nat) returns (ok: bool, x: nat)
      modifies this
      ensures ok <==> NumberAt(file, old(pos), w).Some?
      ensures ok ==> NumberAt(file, old(pos), w) == Some(x) && pos == old(pos) + w
    {
      var s;
      ok, s := Read(w);
      x := Number(s);
    }

    /** Skip one value; v is its int64 if it is an integer. */
    method Skip(t: nat) returns (ok: bool, v: int)
      modifies this
      ensures ok <==> SkipTo(file, old(pos), t).Some?
      ensures ok ==> SkipTo(file, old(pos), t) == Some(pos) && v == IntAt(file, old(pos), t)
      decreases Left(file, pos), 1
    {
      ok, v := false, 0;
      if t == STRING {
        var n;
        ok, n := ReadNumber(8);
        if ok && n < TWO63 { pos := pos + n; } else { ok := false; }
      } else if t == ARRAY {
        ok := SkipArray();
      } else if t <= FLOAT64 {
        var s;
        ok, s := Read(Fixed(t));
        if ok { v := Extract(t, s); }
      }
    }

    method SkipArray() returns (ok: bool)
      modifies this
      ensures ok <==> SkipTo(file, old(pos), ARRAY).Some?
      ensures ok ==> SkipTo(file, old(pos), ARRAY) == Some(pos)
      decreases Left(file, pos), 0
    {
      var et, n;
      ok, et := ReadNumber(4);
      if !ok { return; }
      ok, n := ReadNumber(8);
      if !ok { return; }
      ghost var start := pos;
      var i := 0;
      while i < n
        invariant 0 <= i <= n && start == old(pos) + 12 <= |file| && start <= pos
        invariant SkipAll(file, start, et, n) == SkipAll(file, pos, et, n - i)
      {
        var v;
        ok, v := Skip(et);
        if !ok { return; }
        i := i + 1;
      }
    }

    /** Read one entry: its key, and its value as an int64. */
    method ReadEntry() returns (ok: bool, key: seq<Byte>, v: int)
      modifies this
      ensures ok <==> EntryAt(file, old(pos)).Some?
      ensures ok ==> EntryAt(file, old(pos)) == Some(Seen(key, v, pos))
    {
      key, v := [], 0;
      var klen, vt;
      ok, klen := ReadNumber(8);
      if !ok { return; }
      if klen > MAX_KEY { return false, [], 0; }
      ok, key := Read(klen);
      if !ok { return; }
      ok, vt := ReadNumber(4);
      if !ok { return; }
      ok, v := Skip(vt);
    }

    /** Read one entry and decide: the scan is over, or goes on behind it. */
    method ScanOne(n: nat, suf: seq<Byte>) returns (stop: bool, found: nat)
      requires n > 0
      modifies this
      ensures stop ==> Scan(file, old(pos), n, suf) == found
      ensures !stop ==> found == 0 && Scan(file, old(pos), n, suf) == Scan(file, pos, n - 1, suf)
    {
      var ok, key, v := ReadEntry();
      if !ok { return true, 0; }
      if EndsWith(key, suf) && InRange(v) { return true, v; }
      stop, found := false, 0;
    }
  }

  /** The lookup as the source runs it finds what Lookup says. */
  method KvInt(file: seq<Byte>, suf: seq<Byte>) returns (found: nat)
    ensures found == Lookup(file, suf)
  {
    var r := new Reader(file);
    var ok, magic := r.Read(4);
    if !ok || magic != MAGIC { return 0; }
    var version, nTensor, nKv;
    ok, version := r.ReadNumber(4);
    if !ok { return 0; }
    ok, nTensor := r.ReadNumber(8);
    if !ok { return 0; }
    ok, nKv := r.ReadNumber(8);
    if !ok { return 0; }
    found := ScanEntries(r, nKv, suf);
  }

  method ScanEntries(r: Reader, nKv: nat, suf: seq<Byte>) returns (found: nat)
    modifies r
    ensures found == Scan(r.file, old(r.pos), nKv, suf)
  {
    ghost var target := Scan(r.file, r.pos, nKv, suf);
    found := 0;
    var i := 0;
    var stop := false;
    while i < nKv && !stop
      invariant 0 <= i <= nKv && (!stop ==> found == 0)
      invariant target == (if stop then found else Scan(r.file, r.pos, nKv - i, suf))
      decreases nKv - i, !stop
    {
      stop, found := r.ScanOne(nKv - i, suf);
      if !stop { i := i + 1; }
    }
  }
}
