/** The octets themselves: what the CDR code puts on the wire for a value of any type, in
    either byte order (ddsdata_derive/src/lib.rs:326-449). */
module CdrOctets {
  import opened Types
  import opened Octets
  import opened Cdr

  // ---- numbers ----

  function Two(n: nat, e: Endianness): (bs: seq<Octet>)
    requires n < 0x1_0000
    ensures |bs| == 2
  {
    if e == LittleEndian then [n % 0x100, n / 0x100] else [n / 0x100, n % 0x100]
  }

  function Four(n: nat, e: Endianness): (bs: seq<Octet>)
    requires n < 0x1_0000_0000
    ensures |bs| == 4
  {
    if e == LittleEndian then Two(n % 0x1_0000, e) + Two(n / 0x1_0000, e)
    else Two(n / 0x1_0000, e) + Two(n % 0x1_0000, e)
  }

  function Eight(n: nat, e: Endianness): (bs: seq<Octet>)
    requires n < 0x1_0000_0000_0000_0000
    ensures |bs| == 8
  {
    if e == LittleEndian then Four(n % 0x1_0000_0000, e) + Four(n / 0x1_0000_0000, e)
    else Four(n / 0x1_0000_0000, e) + Four(n % 0x1_0000_0000, e)
  }

  lemma LittleMore(n: nat, size: nat)
    ensures Little(n, size + 1) == [n % 0x100] + Little(n / 0x100, size)
  {
  }

  lemma LittleOne(n: nat)
    requires n < 0x100
    ensures Little(n, 1) == [n]
  {
    LittleMore(n, 0);
  }

  lemma LittleTwo(n: nat)
    requires n < 0x1_0000
    ensures Little(n, 2) == [n % 0x100, n / 0x100]
  {
    LittleMore(n, 1);
    LittleOne(n / 0x100);
  }

  lemma LittleFour(n: nat)
    requires n < 0x1_0000_0000
    ensures Little(n, 4) == Little(n % 0x1_0000, 2) + Little(n / 0x1_0000, 2)
  {
    LittleMore(n, 3);
    LittleMore(n / 0x100, 2);
    LittleMore(n % 0x1_0000, 1);
    LittleMore(n % 0x1_0000 / 0x100, 0);
    assert n / 0x100 / 0x100 == n / 0x1_0000;
    assert n % 0x1_0000 % 0x100 == n % 0x100 && n % 0x1_0000 / 0x100 % 0x100 == n / 0x100 % 0x100;
  }

  lemma Shifted(n: nat)
    ensures n / 0x100 / 0x100 / 0x100 / 0x100 == n / 0x1_0000_0000
    ensures n % 0x1_0000_0000 / 0x100 / 0x100 / 0x100 / 0x100 == 0
  {
  }

  lemma SameDigits(n: nat)
    ensures var m := n % 0x1_0000_0000;
      && m % 0x100 == n % 0x100 && m / 0x100 % 0x100 == n / 0x100 % 0x100
      && m / 0x100 / 0x100 % 0x100 == n / 0x100 / 0x100 % 0x100
      && m / 0x100 / 0x100 / 0x100 % 0x100 == n / 0x100 / 0x100 / 0x100 % 0x100
  {
    var m := n % 0x1_0000_0000;
    var q := n / 0x1_0000_0000;
    assert n == m + 0x1_0000_0000 * q;
    assert n / 0x100 == m / 0x100 + 0x100_0000 * q;
    assert n / 0x100 / 0x100 == m / 0x100 / 0x100 + 0x1_0000 * q;
    assert n / 0x100 / 0x100 / 0x100 == m / 0x100 / 0x100 / 0x100 + 0x100 * q;
  }

  lemma LittleHead(n: nat, size: nat)
    ensures Little(n, size + 4)
         == [n % 0x100, n / 0x100 % 0x100, n / 0x100 / 0x100 % 0x100, n / 0x100 / 0x100 / 0x100 % 0x100]
            + Little(n / 0x1_0000_0000, size)
  {
    hide Little;
    LittleMore(n, size + 3);
    LittleMore(n / 0x100, size + 2);
    LittleMore(n / 0x100 / 0x100, size + 1);
    LittleMore(n / 0x100 / 0x100 / 0x100, size);
    Shifted(n);
  }

  lemma LittleEight(n: nat)
    requires n < 0x1_0000_0000_0000_0000
    ensures Little(n, 8) == Little(n % 0x1_0000_0000, 4) + Little(n / 0x1_0000_0000, 4)
  {
    LittleHead(n, 4);
    LittleHead(n % 0x1_0000_0000, 0);
    SameDigits(n);
    hide Little;
    assert Little(0, 0) == [];
  }

  lemma {:induction false} ReversedSplit(a: seq<Octet>, b: seq<Octet>)
    ensures Reversed(a + b) == Reversed(b) + Reversed(a)
  {
    if a == [] {
      assert a + b == b;
    } else {
      ReversedSplit(a[1..], b);
      assert (a + b)[1..] == a[1..] + b;
    }
  }

  lemma ReversedTwo(a: Octet, b: Octet)
    ensures Reversed([a]) == [a] && Reversed([a, b]) == [b, a]
  {
    ReversedSplit([a], [b]);
    assert [a][1..] == [] && [b][1..] == [] && [a] + [b] == [a, b];
  }

  /** One, two, four and eight octets, least or most significant first. */
  lemma NumberOctets(n: nat, e: Endianness)
    ensures n < 0x100 ==> Spell(n, 1, e) == [n]
    ensures n < 0x1_0000 ==> Spell(n, 2, e) == Two(n, e)
    ensures n < 0x1_0000_0000 ==> Spell(n, 4, e) == Four(n, e)
    ensures n < 0x1_0000_0000_0000_0000 ==> Spell(n, 8, e) == Eight(n, e)
  {
    hide Little, Reversed;
    if n < 0x100 {
      LittleOne(n);
      ReversedTwo(n, n);
    }
    if n < 0x1_0000 {
      SpelledTwo(n, e);
    }
    if n < 0x1_0000_0000 {
      SpelledFour(n, e);
    }
    if n < 0x1_0000_0000_0000_0000 {
      LittleEight(n);
      SpelledFour(n % 0x1_0000_0000, e);
      SpelledFour(n / 0x1_0000_0000, e);
      ReversedSplit(Little(n % 0x1_0000_0000, 4), Little(n / 0x1_0000_0000, 4));
    }
  }

  lemma SpelledTwo(n: nat, e: Endianness)
    requires n < 0x1_0000
    ensures Spell(n, 2, e) == Two(n, e)
  {
    LittleTwo(n);
    ReversedTwo(n % 0x100, n / 0x100);
  }

  lemma SpelledFour(n: nat, e: Endianness)
    requires n < 0x1_0000_0000
    ensures Spell(n, 4, e) == Four(n, e)
  {
    hide Little, Reversed;
    LittleFour(n);
    SpelledTwo(n % 0x1_0000, e);
    SpelledTwo(n / 0x1_0000, e);
    ReversedSplit(Little(n % 0x1_0000, 2), Little(n / 0x1_0000, 2));
  }

  /** Which numbers each scalar holds. */
  lemma RangesExactly(p: Prim, n: int)
    ensures InRange(p, n) <==>
      match p
      case U8 => 0 <= n <= 0xFF
      case I8 => -0x80 <= n <= 0x7F
      case Bool => n == 0 || n == 1
      case Char => 0 <= n <= 0x10_FFFF
      case U16 => 0 <= n <= 0xFFFF
      case I16 => -0x8000 <= n <= 0x7FFF
      case U32 | F32 => 0 <= n <= 0xFFFF_FFFF
      case I32 => -0x8000_0000 <= n <= 0x7FFF_FFFF
      case U64 | F64 => 0 <= n <= 0xFFFF_FFFF_FFFF_FFFF
      case I64 => -0x8000_0000_0000_0000 <= n <= 0x7FFF_FFFF_FFFF_FFFF
  {
    Powers();
  }

  /** `n` or, if it is negative, its two's complement. */
  function Complement(n: int, span: nat): int {
    if n < 0 then n + span else n
  }

  /** The octets of one scalar, without padding; a char is cut to its low octet. */
  function ScalarOctets(p: Prim, n: int, e: Endianness): (bs: seq<Octet>)
    requires InRange(p, n)
    ensures |bs| == 1 || |bs| == 2 || |bs| == 4 || |bs| == 8
  {
    RangesExactly(p, n);
    match p
    case U8 | Bool => [n]
    case I8 => [Complement(n, 0x100)]
    case Char => [n % 0x100]
    case U16 => Two(n, e)
    case I16 => Two(Complement(n, 0x1_0000), e)
    case U32 | F32 => Four(n, e)
    case I32 => Four(Complement(n, 0x1_0000_0000), e)
    case U64 | F64 => Eight(n, e)
    case I64 => Eight(Complement(n, 0x1_0000_0000_0000_0000), e)
  }

  // ---- values ----

  /** Octets, and __cdr_offset after them. */
  datatype Wired = Wired(octets: seq<Octet>, off: nat)

  /** Zeros up to the next multiple of `size`. */
  function ZerosTo(off: nat, size: nat): seq<Octet>
    requires size == 1 || size == 2 || size == 4 || size == 8
    decreases (size - off % size) % size
  {
    if off % size == 0 then [] else
    assert size == 1 || size == 2 || size == 4 || size == 8;
    [0] + ZerosTo(off + 1, size)
  }

  lemma {:induction false} PaddingIsZeros(off: nat, size: nat)
    requires IsWidth(size)
    ensures ZerosTo(off, size) == Zeros(Padding(off, size))
    decreases Padding(off, size)
  {
    if off % size != 0 {
      PaddingStep(off, size);
      PaddingIsZeros(off + 1, size);
      assert [0] + Zeros(Padding(off + 1, size)) == Zeros(Padding(off, size));
    }
  }

  lemma NextOfTwo(off: nat)
    ensures (off + 1) % 2 == if off % 2 == 1 then 0 else off % 2 + 1
  {
  }

  lemma NextOfFour(off: nat)
    ensures (off + 1) % 4 == if off % 4 == 3 then 0 else off % 4 + 1
  {
  }

  lemma NextOfEight(off: nat)
    ensures (off + 1) % 8 == if off % 8 == 7 then 0 else off % 8 + 1
  {
  }

  lemma PaddingStep(off: nat, size: nat)
    requires IsWidth(size) && off % size != 0
    ensures Padding(off, size) == Padding(off + 1, size) + 1
  {
    NextOfTwo(off);
    NextOfFour(off);
    NextOfEight(off);
    PaddingFrom(off % size, size);
    PaddingFrom((off + 1) % size, size);
  }

  lemma PaddingFrom(m: nat, size: nat)
    requires IsWidth(size) && m < size
    ensures (size - m) % size == if m == 0 then 0 else size - m
  {
  }

  function Aligned(octets: seq<Octet>, off: nat): Wired
    requires IsWidth(|octets|)
  {
    var zeros := ZerosTo(off, |octets|);
    Wired(zeros + octets, off + |zeros| + |octets|)
  }

  function After(a: Wired, b: Wired): Wired {
    Wired(a.octets + b.octets, b.off)
  }

  /** The octets of a value that starts at offset `off` of its struct. A string is its length,
      its octets and a 0, the length counting that 0; a vector or a map has its count first;
      an array has none; a struct inside a struct starts at offset 0 again, and the offset of
      the outer one does not move. */
  ghost function Wire(ty: Ty, v: Val, off: nat, e: Endianness): Wired
    requires Typed(ty, v)
    decreases ty, 1, 0
  {
    match ty
    case Scalar(p) => Aligned(ScalarOctets(p, v.n, e), off)
    case Text =>
      var len := Aligned(Four(|v.octets| + 1, e), off);
      Wired(len.octets + v.octets + [0], len.off + |v.octets| + 1)
    case Vec(elem) =>
      var count := Aligned(Four(|v.items|, e), off);
      After(count, WireItems(elem, v.items, count.off, e))
    case Array(elem, _) => WireItems(elem, v.items, off, e)
    case Map(key, val) =>
      var count := Aligned(Four(|v.entries|, e), off);
      After(count, WireEntries(key, val, v.entries, count.off, e))
    case Nested(fields) => Wired(WireFields(fields, v.vals, 0, e).octets, off)
  }

  ghost function WireItems(elem: Ty, items: seq<Val>, off: nat, e: Endianness): Wired
    requires forall i :: 0 <= i < |items| ==> Typed(elem, items[i])
    decreases elem, 2, |items|
  {
    if items == [] then Wired([], off)
    else
      var first := Wire(elem, items[0], off, e);
      After(first, WireItems(elem, items[1..], first.off, e))
  }

  ghost function WireEntries(key: Ty, val: Ty, es: seq<Entry>, off: nat, e: Endianness): Wired
    requires forall i :: 0 <= i < |es| ==> EntryTyped(key, val, es[i])
    decreases Map(key, val), 0, |es|
  {
    if es == [] then Wired([], off)
    else
      assert EntryTyped(key, val, es[0]);
      var k := Wire(key, es[0].key, off, e);
      var v := Wire(val, es[0].val, k.off, e);
      After(After(k, v), WireEntries(key, val, es[1..], v.off, e))
  }

  ghost function WireFields(fields: Fields, vals: seq<Val>, off: nat, e: Endianness): Wired
    requires FieldsTyped(fields, vals)
    decreases fields, 1, 0
  {
    match fields
    case NoFields => Wired([], off)
    case Field(ty, rest) =>
      var first := Wire(ty, vals[0], off, e);
      After(first, WireFields(rest, vals[1..], first.off, e))
  }

  /** The pieces written are these octets. */
  ghost predicate Puts(w: Written, r: Wired, e: Endianness) {
    Bytes(w.pieces, e) == r.octets && w.off == r.off
  }

  lemma PutsBoth(a: Written, b: Written, x: Wired, y: Wired, e: Endianness)
    requires Puts(a, x, e) && Puts(b, y, e)
    ensures Puts(Then(a, b), After(x, y), e)
  {
    BytesConcat(a.pieces, b.pieces, e);
  }

  lemma PutsWord(size: nat, raw: nat, octets: seq<Octet>, off: nat, e: Endianness)
    requires IsWidth(size) && Spell(raw, size, e) == octets
    ensures Puts(WriteWord(size, raw, off), Aligned(octets, off), e)
  {
    hide Spell, Bytes;
    WordBytes(size, raw, off, e);
    PaddingIsZeros(off, size);
    hide Padding, ZerosTo;
  }

  lemma ScalarSpelled(p: Prim, n: int, e: Endianness)
    requires InRange(p, n)
    ensures RawOf(p, n) >= 0 && Spell(RawOf(p, n), Width(p), e) == ScalarOctets(p, n, e)
  {
    RangesExactly(p, n);
    Powers();
    NumberOctets(RawOf(p, n), e);
    hide Spell, Two, Four, Eight, Power;
  }

  lemma PutsScalar(p: Prim, n: int, off: nat, e: Endianness)
    requires InRange(p, n)
    ensures Puts(Write(Scalar(p), Number(n), off), Aligned(ScalarOctets(p, n, e), off), e)
  {
    hide Spell, Puts, InRange, ScalarOctets, Width, RawOf;
    ScalarSpelled(p, n, e);
    PutsWord(Width(p), RawOf(p, n), ScalarOctets(p, n, e), off, e);
  }

  lemma PutsCount(n: nat, off: nat, e: Endianness)
    requires n < LENGTH_LIMIT
    ensures Puts(WriteWord(4, n, off), Aligned(Four(n, e), off), e)
  {
    NumberOctets(n, e);
    hide Spell, Four, Puts;
    PutsWord(4, n, Four(n, e), off, e);
  }

  lemma PutsText(v: Val, off: nat, e: Endianness)
    requires Typed(Text, v)
    ensures Puts(Write(Text, v, off), Wire(Text, v, off, e), e)
  {
    hide Write, Wire, WriteWord, Aligned, Four, Puts, IsUtf8;
    var n := |v.octets| + 1;
    PutsCount(n, off, e);
    PutsRest(v.octets, WriteWord(4, n, off), Aligned(Four(n, e), off), e);
    TextUnfolds(v, off, e);
  }

  lemma TextUnfolds(v: Val, off: nat, e: Endianness)
    requires Typed(Text, v)
    ensures var n := |v.octets| + 1;
      var w, r := WriteWord(4, n, off), Aligned(Four(n, e), off);
      && Write(Text, v, off) == Written(w.pieces + [Plain(v.octets), Word(1, 0)], w.off + n)
      && Wire(Text, v, off, e) == Wired(r.octets + v.octets + [0], r.off + n)
  {
  }

  lemma PutsRest(octets: seq<Octet>, w: Written, r: Wired, e: Endianness)
    requires Puts(w, r, e)
    ensures var n := |octets| + 1;
      Puts(Written(w.pieces + [Plain(octets), Word(1, 0)], w.off + n), Wired(r.octets + octets + [0], r.off + n), e)
  {
    TextEnd(octets, e);
    hide Bytes;
    BytesConcat(w.pieces, [Plain(octets), Word(1, 0)], e);
    Octets.Regroup(r.octets, octets, [0]);
  }

  lemma TextEnd(octets: seq<Octet>, e: Endianness)
    ensures Bytes([Plain(octets), Word(1, 0)], e) == octets + [0]
  {
    TextBody(octets, e);
    NumberOctets(0, e);
    hide *;
  }

  /** Whatever the type, what is written is these octets. */
  lemma {:induction false} WrittenOctets(ty: Ty, v: Val, off: nat, e: Endianness)
    requires Typed(ty, v)
    ensures Puts(Write(ty, v, off), Wire(ty, v, off, e), e)
    decreases ty, 1, 0
  {
    hide Puts, Aligned, WriteWord, WriteItems, WriteEntries, WireItems, WireEntries, WriteFields, WireFields, Four, After, Then;
    match ty
    case Scalar(p) => PutsScalar(p, v.n, off, e);
    case Text => PutsText(v, off, e);
    case Vec(elem) =>
      var count := WriteWord(4, |v.items|, off);
      PutsCount(|v.items|, off, e);
      PutsOff(count, Aligned(Four(|v.items|, e), off), e);
      ItemsOctets(elem, v.items, count.off, e);
      PutsBoth(count, WriteItems(elem, v.items, count.off), Aligned(Four(|v.items|, e), off), WireItems(elem, v.items, count.off, e), e);
    case Array(elem, _) => ItemsOctets(elem, v.items, off, e);
    case Map(key, val) =>
      var count := WriteWord(4, |v.entries|, off);
      PutsCount(|v.entries|, off, e);
      PutsOff(count, Aligned(Four(|v.entries|, e), off), e);
      EntriesOctets(key, val, v.entries, count.off, e);
      PutsBoth(count, WriteEntries(key, val, v.entries, count.off), Aligned(Four(|v.entries|, e), off),
               WireEntries(key, val, v.entries, count.off, e), e);
    case Nested(fields) =>
      FieldsOctets(fields, v.vals, 0, e);
      PutsNested(WriteFields(fields, v.vals, 0), WireFields(fields, v.vals, 0, e), off, e);
  }

  lemma PutsOff(w: Written, r: Wired, e: Endianness)
    requires Puts(w, r, e)
    ensures w.off == r.off
  {
  }

  lemma PutsNested(w: Written, r: Wired, off: nat, e: Endianness)
    requires Puts(w, r, e)
    ensures Puts(Written(w.pieces, off), Wired(r.octets, off), e)
  {
  }

  lemma PutsNothing(off: nat, e: Endianness)
    ensures Puts(Written([], off), Wired([], off), e)
  {
  }

  lemma {:induction false} ItemsOctets(elem: Ty, items: seq<Val>, off: nat, e: Endianness)
    requires forall i :: 0 <= i < |items| ==> Typed(elem, items[i])
    ensures Puts(WriteItems(elem, items, off), WireItems(elem, items, off, e), e)
    decreases elem, 2, |items|
  {
    hide Puts, Write, Wire, After, Then;
    if items == [] {
      PutsNothing(off, e);
    } else {
      var first, x := Write(elem, items[0], off), Wire(elem, items[0], off, e);
      WrittenOctets(elem, items[0], off, e);
      PutsOff(first, x, e);
      ItemsOctets(elem, items[1..], first.off, e);
      PutsBoth(first, WriteItems(elem, items[1..], first.off), x, WireItems(elem, items[1..], first.off, e), e);
    }
  }

  lemma {:induction false} EntriesOctets(key: Ty, val: Ty, es: seq<Entry>, off: nat, e: Endianness)
    requires forall i :: 0 <= i < |es| ==> EntryTyped(key, val, es[i])
    ensures Puts(WriteEntries(key, val, es, off), WireEntries(key, val, es, off, e), e)
    decreases Map(key, val), 0, |es|
  {
    hide Puts, Write, Wire, After, Then, Typed;
    if es == [] {
      PutsNothing(off, e);
    } else {
      assert EntryTyped(key, val, es[0]);
      var k, x := Write(key, es[0].key, off), Wire(key, es[0].key, off, e);
      WrittenOctets(key, es[0].key, off, e);
      PutsOff(k, x, e);
      var v, y := Write(val, es[0].val, k.off), Wire(val, es[0].val, k.off, e);
      WrittenOctets(val, es[0].val, k.off, e);
      PutsOff(v, y, e);
      PutsBoth(k, v, x, y, e);
      EntriesOctets(key, val, es[1..], v.off, e);
      PutsBoth(Then(k, v), WriteEntries(key, val, es[1..], v.off), After(x, y), WireEntries(key, val, es[1..], v.off, e), e);
    }
  }

  lemma {:induction false} FieldsOctets(fields: Fields, vals: seq<Val>, off: nat, e: Endianness)
    requires FieldsTyped(fields, vals)
    ensures Puts(WriteFields(fields, vals, off), WireFields(fields, vals, off, e), e)
    decreases fields, 1, 0
  {
    hide Puts, Write, Wire, After, Then;
    match fields
    case NoFields => PutsNothing(off, e);
    case Field(ty, rest) =>
      var first, x := Write(ty, vals[0], off), Wire(ty, vals[0], off, e);
      WrittenOctets(ty, vals[0], off, e);
      PutsOff(first, x, e);
      FieldsOctets(rest, vals[1..], first.off, e);
      PutsBoth(first, WriteFields(rest, vals[1..], first.off), x, WireFields(rest, vals[1..], first.off, e), e);
  }

  // ---- one sample of everything ----

  lemma ZerosHere(off: nat, size: nat)
    requires IsWidth(size)
    ensures off % size == 0 ==> ZerosTo(off, size) == []
    ensures off % size != 0 && (off + 1) % size == 0 ==> ZerosTo(off, size) == [0]
    ensures size == 4 && off % 4 == 2 ==> ZerosTo(off, size) == [0, 0]
  {
    if size == 4 && off % 4 == 2 {
      assert ZerosTo(off, 4) == [0] + ZerosTo(off + 1, 4) == [0] + ([0] + ZerosTo(off + 2, 4));
    }
  }

  lemma OneScalar(p: Prim, n: int, off: nat, e: Endianness)
    requires InRange(p, n)
    ensures Wire(Scalar(p), Number(n), off, e) == Aligned(ScalarOctets(p, n, e), off)
  {
  }

  lemma OneField(ty: Ty, v: Val, rest: Fields, vals: seq<Val>, off: nat, e: Endianness)
    requires Typed(ty, v) && FieldsTyped(rest, vals)
    ensures FieldsTyped(Field(ty, rest), [v] + vals)
    ensures var first := Wire(ty, v, off, e);
      WireFields(Field(ty, rest), [v] + vals, off, e) == After(first, WireFields(rest, vals, first.off, e))
  {
    assert ([v] + vals)[1..] == vals;
  }

  lemma SmallWires(e: Endianness)
    ensures Typed(Scalar(U8), Number(7)) && Wire(Scalar(U8), Number(7), 0, e) == Wired([7], 1)
    ensures Typed(Scalar(U16), Number(0x102)) && Wire(Scalar(U16), Number(0x102), 1, e) == Wired([0] + Two(0x102, e), 4)
    ensures Typed(Text, Str([0x41])) && Wire(Text, Str([0x41]), 4, e) == Wired(Four(2, e) + [0x41, 0], 10)
  {
    RangesExactly(U8, 7);
    RangesExactly(U16, 0x102);
    ZerosHere(0, 1);
    ZerosHere(1, 2);
    ZerosHere(4, 4);
    assert IsUtf8([0x41]) by {
      assert [0x41][PointLength([0x41])..] == [];
    }
    assert [] + Four(2, e) + [0x41] + [0] == Four(2, e) + [0x41, 0];
  }

  lemma VecWire(e: Endianness)
    ensures Typed(Vec(Scalar(I16)), Items([Number(-2)]))
    ensures Wire(Vec(Scalar(I16)), Items([Number(-2)]), 10, e) == Wired([0, 0] + Four(1, e) + Two(0xFFFE, e), 18)
  {
    RangesExactly(I16, -2);
    ZerosHere(10, 4);
    ZerosHere(16, 2);
    var items := [Number(-2)];
    OneScalar(I16, -2, 16, e);
    assert items[1..] == [];
    assert WireItems(Scalar(I16), items, 16, e) == Wired(Two(0xFFFE, e) + [], 18);
  }

  lemma MapWire(e: Endianness)
    ensures var es := Entries([Entry(Number(0xE9), Number(1))]);
      && Typed(Map(Scalar(Char), Scalar(Bool)), es)
      && Wire(Map(Scalar(Char), Scalar(Bool)), es, 18, e) == Wired([0, 0] + Four(1, e) + [0xE9, 1], 26)
  {
    var es := [Entry(Number(0xE9), Number(1))];
    RangesExactly(Char, 0xE9);
    RangesExactly(Bool, 1);
    ZerosHere(18, 4);
    ZerosHere(24, 1);
    ZerosHere(25, 1);
    OneScalar(Char, 0xE9, 24, e);
    OneScalar(Bool, 1, 25, e);
    assert EntryTyped(Scalar(Char), Scalar(Bool), es[0]) && es[1..] == [];
    assert WireEntries(Scalar(Char), Scalar(Bool), es, 24, e) == Wired([0xE9] + [1] + [], 26);
  }

  lemma NestedWire(e: Endianness)
    ensures var inner := Field(Scalar(I32), NoFields);
      && Typed(Nested(inner), Record([Number(-3)]))
      && Wire(Nested(inner), Record([Number(-3)]), 26, e) == Wired(Four(0xFFFF_FFFD, e), 26)
  {
    RangesExactly(I32, -3);
    ZerosHere(0, 4);
    OneScalar(I32, -3, 0, e);
    OneField(Scalar(I32), Number(-3), NoFields, [], 0, e);
    assert [Number(-3)] + [] == [Number(-3)];
  }

  function MixedFields(): Fields {
    Field(Scalar(U8), Field(Scalar(U16), Field(Text, Field(Vec(Scalar(I16)),
      Field(Map(Scalar(Char), Scalar(Bool)), Field(Nested(Field(Scalar(I32), NoFields)), NoFields))))))
  }

  function MixedVals(): seq<Val> {
    [Number(7), Number(0x102), Str([0x41]), Items([Number(-2)]), Entries([Entry(Number(0xE9), Number(1))]), Record([Number(-3)])]
  }

  /** A u8, a u16, a string, a vector of i16, a map from char to bool and a nested struct, to
      the last octet; the struct inside is not aligned with what is around it. */
  lemma MixedSample()
    ensures FieldsTyped(MixedFields(), MixedVals())
    ensures Bytes(WriteStruct(MixedFields(), MixedVals()).pieces, LittleEndian)
         == [7] + [0, 0x02, 0x01] + [2, 0, 0, 0, 0x41, 0] + [0, 0, 1, 0, 0, 0, 0xFE, 0xFF]
            + [0, 0, 1, 0, 0, 0, 0xE9, 1] + [0xFD, 0xFF, 0xFF, 0xFF]
    ensures Bytes(WriteStruct(MixedFields(), MixedVals()).pieces, BigEndian)
         == [7] + [0, 0x01, 0x02] + [0, 0, 0, 2, 0x41, 0] + [0, 0, 0, 0, 0, 1, 0xFF, 0xFE]
            + [0, 0, 0, 0, 0, 1, 0xE9, 1] + [0xFF, 0xFF, 0xFF, 0xFD]
  {
    MixedOctets(LittleEndian);
    MixedOctets(BigEndian);
    LittleWords();
    BigWords();
    hide *;
  }

  lemma LittleWords()
    ensures [0] + Two(0x102, LittleEndian) == [0, 0x02, 0x01]
    ensures Four(2, LittleEndian) + [0x41, 0] == [2, 0, 0, 0, 0x41, 0]
    ensures [0, 0] + Four(1, LittleEndian) + Two(0xFFFE, LittleEndian) == [0, 0, 1, 0, 0, 0, 0xFE, 0xFF]
    ensures [0, 0] + Four(1, LittleEndian) + [0xE9, 1] == [0, 0, 1, 0, 0, 0, 0xE9, 1]
    ensures Four(0xFFFF_FFFD, LittleEndian) == [0xFD, 0xFF, 0xFF, 0xFF]
  {
  }

  lemma BigWords()
    ensures [0] + Two(0x102, BigEndian) == [0, 0x01, 0x02]
    ensures Four(2, BigEndian) + [0x41, 0] == [0, 0, 0, 2, 0x41, 0]
    ensures [0, 0] + Four(1, BigEndian) + Two(0xFFFE, BigEndian) == [0, 0, 0, 0, 0, 1, 0xFF, 0xFE]
    ensures [0, 0] + Four(1, BigEndian) + [0xE9, 1] == [0, 0, 0, 0, 0, 1, 0xE9, 1]
    ensures Four(0xFFFF_FFFD, BigEndian) == [0xFF, 0xFF, 0xFF, 0xFD]
  {
  }

  lemma Joined(a: seq<Octet>, b: seq<Octet>, c: seq<Octet>, d: seq<Octet>, f: seq<Octet>, g: seq<Octet>)
    ensures a + (b + (c + (d + (f + (g + []))))) == a + b + c + d + f + g
  {
  }

  lemma MixedOctets(e: Endianness)
    ensures FieldsTyped(MixedFields(), MixedVals())
    ensures Bytes(WriteStruct(MixedFields(), MixedVals()).pieces, e)
         == [7] + ([0] + Two(0x102, e)) + (Four(2, e) + [0x41, 0]) + ([0, 0] + Four(1, e) + Two(0xFFFE, e))
            + ([0, 0] + Four(1, e) + [0xE9, 1]) + Four(0xFFFF_FFFD, e)
  {
    MixedWire(e);
    FieldsOctets(MixedFields(), MixedVals(), 0, e);
    hide Two, Four, Bytes, MixedFields, MixedVals, FieldsTyped, WireFields, WriteFields;
    Joined([7], [0] + Two(0x102, e), Four(2, e) + [0x41, 0], [0, 0] + Four(1, e) + Two(0xFFFE, e),
           [0, 0] + Four(1, e) + [0xE9, 1], Four(0xFFFF_FFFD, e));
  }

  lemma MixedWire(e: Endianness)
    ensures FieldsTyped(MixedFields(), MixedVals())
    ensures WireFields(MixedFields(), MixedVals(), 0, e).octets
         == [7] + ([0] + Two(0x102, e) + (Four(2, e) + [0x41, 0] + ([0, 0] + Four(1, e) + Two(0xFFFE, e)
            + ([0, 0] + Four(1, e) + [0xE9, 1] + (Four(0xFFFF_FFFD, e) + [])))))
  {
    SmallWires(e);
    VecWire(e);
    MapWire(e);
    NestedWire(e);
    hide Wire, Typed, FieldsTyped, WireFields, Two, Four, Aligned, ScalarOctets;
    var inner := Nested(Field(Scalar(I32), NoFields));
    var key := Map(Scalar(Char), Scalar(Bool));
    var es := Entries([Entry(Number(0xE9), Number(1))]);
    var f1, v1 := Field(inner, NoFields), [Record([Number(-3)])] + [];
    NoMore(26, e);
    OneField(inner, Record([Number(-3)]), NoFields, [], 26, e);
    var f2, v2 := Field(key, f1), [es] + v1;
    OneField(key, es, f1, v1, 18, e);
    var f3, v3 := Field(Vec(Scalar(I16)), f2), [Items([Number(-2)])] + v2;
    OneField(Vec(Scalar(I16)), Items([Number(-2)]), f2, v2, 10, e);
    var f4, v4 := Field(Text, f3), [Str([0x41])] + v3;
    OneField(Text, Str([0x41]), f3, v3, 4, e);
    var f5, v5 := Field(Scalar(U16), f4), [Number(0x102)] + v4;
    OneField(Scalar(U16), Number(0x102), f4, v4, 1, e);
    OneField(Scalar(U8), Number(7), f5, v5, 0, e);
    assert [Number(7)] + v5 == MixedVals();
  }

  lemma NoMore(off: nat, e: Endianness)
    ensures FieldsTyped(NoFields, []) && WireFields(NoFields, [], off, e) == Wired([], off)
  {
  }

  // ---- what a String holds ----

  /** A Unicode scalar value, in UTF-8. */
  type Point = c: int | 0 <= c < 0xD800 || 0xE000 <= c < 0x11_0000

  function PointOctets(c: Point): (bs: seq<Octet>)
    ensures 1 <= |bs| <= 4
  {
    if c < 0x80 then [c]
    else if c < 0x800 then [0xC0 + c / 0x40, 0x80 + c % 0x40]
    else if c < 0x1_0000 then [0xE0 + c / 0x1000, 0x80 + c / 0x40 % 0x40, 0x80 + c % 0x40]
    else [0xF0 + c / 0x4_0000, 0x80 + c / 0x1000 % 0x40, 0x80 + c / 0x40 % 0x40, 0x80 + c % 0x40]
  }

  function TextOctets(cs: seq<Point>): seq<Octet> {
    if cs == [] then [] else PointOctets(cs[0]) + TextOctets(cs[1..])
  }

  lemma PointAccepted(c: Point, rest: seq<Octet>)
    ensures PointLength(PointOctets(c) + rest) == |PointOctets(c)|
  {
  }

  lemma TwoDecoded(a: int, b: int)
    requires 0xC2 <= a < 0xE0 && 0x80 <= b < 0xC0
    ensures var c := (a - 0xC0) * 0x40 + (b - 0x80);
      0x80 <= c < 0x800 && c / 0x40 == a - 0xC0 && c % 0x40 == b - 0x80
  {
  }

  lemma ThreeDecoded(a: int, b: int, d: int)
    requires 0xE0 <= a < 0xF0 && 0x80 <= b < 0xC0 && 0x80 <= d < 0xC0
    requires (a == 0xE0 ==> b >= 0xA0) && (a == 0xED ==> b < 0xA0)
    ensures var c := (a - 0xE0) * 0x1000 + (b - 0x80) * 0x40 + (d - 0x80);
      && 0x800 <= c < 0x1_0000 && !(0xD800 <= c < 0xE000)
      && c / 0x1000 == a - 0xE0 && c / 0x40 % 0x40 == b - 0x80 && c % 0x40 == d - 0x80
  {
    var c := (a - 0xE0) * 0x1000 + (b - 0x80) * 0x40 + (d - 0x80);
    assert c / 0x40 == (a - 0xE0) * 0x40 + (b - 0x80);
  }

  lemma FourDecoded(a: int, b: int, d: int, f: int)
    requires 0xF0 <= a < 0xF5 && 0x80 <= b < 0xC0 && 0x80 <= d < 0xC0 && 0x80 <= f < 0xC0
    requires (a == 0xF0 ==> b >= 0x90) && (a == 0xF4 ==> b < 0x90)
    ensures var c := (a - 0xF0) * 0x4_0000 + (b - 0x80) * 0x1000 + (d - 0x80) * 0x40 + (f - 0x80);
      && 0x1_0000 <= c < 0x11_0000 && c / 0x4_0000 == a - 0xF0
      && c / 0x1000 % 0x40 == b - 0x80 && c / 0x40 % 0x40 == d - 0x80 && c % 0x40 == f - 0x80
  {
    var c := (a - 0xF0) * 0x4_0000 + (b - 0x80) * 0x1000 + (d - 0x80) * 0x40 + (f - 0x80);
    assert c / 0x40 == (a - 0xF0) * 0x1000 + (b - 0x80) * 0x40 + (d - 0x80);
    assert c / 0x1000 == (a - 0xF0) * 0x40 + (b - 0x80);
  }

  lemma PointDecoded(bs: seq<Octet>) returns (c: Point)
    requires bs != [] && PointLength(bs) > 0
    ensures PointOctets(c) == bs[..PointLength(bs)]
  {
    var n := PointLength(bs);
    var first: int, second: int := bs[0], if n > 1 then bs[1] else 0;
    var third: int, fourth: int := if n > 2 then bs[2] else 0, if n > 3 then bs[3] else 0;
    if n == 1 {
      c := first;
    } else if n == 2 {
      TwoDecoded(first, second);
      c := (first - 0xC0) * 0x40 + (second - 0x80);
    } else if n == 3 {
      ThreeDecoded(first, second, third);
      c := (first - 0xE0) * 0x1000 + (second - 0x80) * 0x40 + (third - 0x80);
    } else {
      FourDecoded(first, second, third, fourth);
      c := (first - 0xF0) * 0x4_0000 + (second - 0x80) * 0x1000 + (third - 0x80) * 0x40 + (fourth - 0x80);
    }
  }

  lemma {:induction false} TextAccepted(cs: seq<Point>)
    ensures IsUtf8(TextOctets(cs))
  {
    if cs != [] {
      var rest := TextOctets(cs[1..]);
      TextAccepted(cs[1..]);
      PointAccepted(cs[0], rest);
      hide PointLength, PointOctets;
      assert TextOctets(cs)[|PointOctets(cs[0])|..] == rest;
    }
  }

  lemma {:induction false} TextDecoded(bs: seq<Octet>) returns (cs: seq<Point>)
    requires IsUtf8(bs)
    ensures TextOctets(cs) == bs
  {
    hide PointLength, PointOctets;
    if bs == [] {
      cs := [];
    } else {
      var k := PointLength(bs);
      var c := PointDecoded(bs);
      var rest := TextDecoded(bs[k..]);
      cs := [c] + rest;
      assert cs[0] == c && cs[1..] == rest;
      assert TextOctets(cs) == bs[..k] + bs[k..];
    }
  }

  /** The octets a String may hold are exactly those that spell some Unicode text. */
  lemma TextExactly(bs: seq<Octet>)
    ensures IsUtf8(bs) <==> exists cs :: TextOctets(cs) == bs
  {
    if IsUtf8(bs) {
      var cs := TextDecoded(bs);
    }
    forall cs | TextOctets(cs) == bs
      ensures IsUtf8(bs)
    {
      TextAccepted(cs);
    }
  }

  // ---- octets that spell no value ----

  lemma CountRead(n: nat, rest: seq<Octet>, e: Endianness)
    requires n < 0x1_0000_0000
    ensures ReadWord(4, Four(n, e) + rest, 0, e) == Some(WordRead(n, rest, 4))
  {
    NumberOctets(n, e);
    Powers();
    SpellRoundTrip(n, 4, e);
    hide Spell, Octets.Value, Four;
    assert (Four(n, e) + rest)[0..4] == Four(n, e) && (Four(n, e) + rest)[4..] == rest;
  }

  lemma TextRead(n: nat, rest: seq<Octet>, e: Endianness)
    requires n < 0x1_0000_0000
    ensures (n == 0 || n > |rest| || n >= 0x8000_0000 || !IsUtf8(rest[..n - 1]))
         ==> ReadVal(Text, Four(n, e) + rest, 0, e) == ReadError
  {
    CountRead(n, rest, e);
    Powers();
    hide ReadWord, Four, IsUtf8, Power;
  }

  /** A string without room for its closing 0, or longer than what is left, or that is not
      text, is an error. */
  lemma MalformedTexts(n: nat, rest: seq<Octet>, e: Endianness)
    requires 0x8000_0000 <= n < 0x1_0000_0000
    ensures ReadVal(Text, Four(0, e) + rest, 0, e) == ReadError && ReadVal(Text, Four(n, e) + rest, 0, e) == ReadError
    ensures |rest| < 0x7FFF_FFFF ==> ReadVal(Text, Four(|rest| + 1, e) + rest, 0, e) == ReadError
    ensures |rest| < 0x7FFF_FFFF && !IsUtf8(rest) ==> ReadVal(Text, Four(|rest| + 1, e) + (rest + [0]), 0, e) == ReadError
  {
    hide Four, ReadVal;
    TextRead(0, rest, e);
    TextRead(n, rest, e);
    if |rest| < 0x7FFF_FFFF {
      TextRead(|rest| + 1, rest, e);
      TextRead(|rest| + 1, rest + [0], e);
      assert (rest + [0])[..|rest|] == rest;
    }
  }

  /** A negative count is a panic for a vector, unless its items take no memory, and no entry
      for a map; a number cut short is an error, and any octet but 0 is true. */
  lemma MalformedCounts(n: nat, rest: seq<Octet>, elem: Ty, key: Ty, b: Octet, e: Endianness)
    requires 0x8000_0000 <= n < 0x1_0000_0000
    ensures !ZeroSized(elem) ==> ReadVal(Vec(elem), Four(n, e) + rest, 0, e) == Panic
    ensures ReadVal(Map(key, elem), Four(n, e) + rest, 0, e) == Ok(Read(Entries([]), rest, 4))
    ensures |rest| < 4 ==> ReadVal(Scalar(U32), rest, 0, e) == ReadError
    ensures ReadVal(Scalar(Bool), [b] + rest, 0, e) == Ok(Read(Number(if b == 0 then 0 else 1), rest, 1))
  {
    Powers();
    CountRead(n, rest, e);
    OctetRead(b, rest, e);
    NothingRead(rest, e);
    hide ReadWord, Four, Power, ZeroSized, ReadItems;
  }

  lemma NothingRead(rest: seq<Octet>, e: Endianness)
    ensures |rest| < 4 ==> ReadWord(4, rest, 0, e) == None
  {
  }

  lemma OctetRead(b: Octet, rest: seq<Octet>, e: Endianness)
    ensures ReadWord(1, [b] + rest, 0, e) == Some(WordRead(b, rest, 1))
  {
    NumberOctets(b, e);
    Powers();
    SpellRoundTrip(b, 1, e);
    hide Spell, Octets.Value;
    assert ([b] + rest)[0..1] == [b] && ([b] + rest)[1..] == rest;
  }
}
