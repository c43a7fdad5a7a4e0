/** The CDR code that the DdsSerialize and DdsDeserialize macros emit
    (ddsdata_derive/src/lib.rs:205-564), for any type they accept. */
module Cdr {
  import opened Types
  import opened Octets

  datatype Prim = U8 | I8 | Bool | Char | U16 | I16 | U32 | I32 | F32 | U64 | I64 | F64

  /** The types gen_read_expr and gen_write_stmt tell apart. */
  datatype Ty =
    | Scalar(prim: Prim)
    | Text
    | Vec(elem: Ty)
    | Array(elem: Ty, len: nat)
    | Map(key: Ty, val: Ty)
    | Nested(fields: Fields)

  datatype Fields = NoFields | Field(ty: Ty, rest: Fields)

  /** Floating-point numbers are their bit patterns, booleans 0 and 1, characters code
      points, strings their UTF-8 octets; a map lists its entries in the order it is
      walked. */
  datatype Val =
    | Number(n: int)
    | Str(octets: seq<Octet>)
    | Items(items: seq<Val>)
    | Entries(entries: seq<Entry>)
    | Record(vals: seq<Val>)

  datatype Entry = Entry(key: Val, val: Val)

  function Width(p: Prim): (w: nat)
    ensures IsWidth(w)
  {
    match p
    case U8 | I8 | Bool | Char => 1
    case U16 | I16 => 2
    case U32 | I32 | F32 => 4
    case U64 | I64 | F64 => 8
  }

  predicate IsSigned(p: Prim) {
    p == I8 || p == I16 || p == I32 || p == I64
  }

  const MAX_CHAR: nat := 0x10FFFF
  const LENGTH_LIMIT: nat := 0x8000_0000

  predicate InRange(p: Prim, n: int) {
    match p
    case Bool => 0 <= n <= 1
    case Char => 0 <= n <= MAX_CHAR
    case _ =>
      if IsSigned(p) then 0 <= 2 * n + Power(Width(p)) && 2 * n < Power(Width(p)) else 0 <= n < Power(Width(p))
  }

  ghost predicate DistinctKeys(es: seq<Entry>) {
    forall i, j :: 0 <= i < j < |es| ==> es[i].key != es[j].key
  }

  /** `v` is a value of type `ty` whose lengths fit the signed 32-bit prefix. */
  ghost predicate Typed(ty: Ty, v: Val)
    decreases ty
  {
    match ty
    case Scalar(p) => v.Number? && InRange(p, v.n)
    case Text => v.Str? && |v.octets| + 1 < LENGTH_LIMIT && IsUtf8(v.octets)
    case Vec(elem) => v.Items? && |v.items| < LENGTH_LIMIT && forall i :: 0 <= i < |v.items| ==> Typed(elem, v.items[i])
    case Array(elem, len) => v.Items? && |v.items| == len && forall i :: 0 <= i < |v.items| ==> Typed(elem, v.items[i])
    case Map(key, val) =>
      && v.Entries? && |v.entries| < LENGTH_LIMIT && DistinctKeys(v.entries)
      && forall i :: 0 <= i < |v.entries| ==> Typed(key, v.entries[i].key) && Typed(val, v.entries[i].val)
    case Nested(fields) => v.Record? && FieldsTyped(fields, v.vals)
  }

  ghost predicate FieldsTyped(fields: Fields, vals: seq<Val>)
    decreases fields
  {
    match fields
    case NoFields => vals == []
    case Field(ty, rest) => |vals| > 0 && Typed(ty, vals[0]) && FieldsTyped(rest, vals[1..])
  }

  ghost predicate EntryTyped(key: Ty, val: Ty, entry: Entry) {
    Typed(key, entry.key) && Typed(val, entry.val)
  }

  // ---- strings ----

  predicate Follows(b: Octet) {
    0x80 <= b < 0xC0
  }

  /** How many octets the code point at the head of `bs` takes in UTF-8; 0 if it is not one. */
  function PointLength(bs: seq<Octet>): (n: nat)
    requires bs != []
    ensures n <= |bs|
  {
    if bs[0] < 0x80 then 1
    else if |bs| >= 2 && 0xC2 <= bs[0] < 0xE0 && Follows(bs[1]) then 2
    else if |bs| >= 3 && 0xE0 <= bs[0] < 0xF0 && Follows(bs[1]) && Follows(bs[2])
            && (bs[0] == 0xE0 ==> bs[1] >= 0xA0) && (bs[0] == 0xED ==> bs[1] < 0xA0) then 3
    else if |bs| >= 4 && 0xF0 <= bs[0] < 0xF5 && Follows(bs[1]) && Follows(bs[2]) && Follows(bs[3])
            && (bs[0] == 0xF0 ==> bs[1] >= 0x90) && (bs[0] == 0xF4 ==> bs[1] < 0x90) then 4
    else 0
  }

  /** What a String may hold; reading anything else is an error. */
  predicate IsUtf8(bs: seq<Octet>) {
    bs == [] || (PointLength(bs) > 0 && IsUtf8(bs[PointLength(bs)..]))
  }

  // ---- writing ----

  /** What the emitted writer puts out, piece by piece. */
  datatype Piece = Pad(count: nat) | Word(size: nat, raw: nat) | Plain(octets: seq<Octet>)

  /** What was written, and __cdr_offset afterwards. */
  datatype Written = Written(pieces: seq<Piece>, off: nat)

  predicate IsWidth(size: nat) {
    size == 1 || size == 2 || size == 4 || size == 8
  }

  function Padding(off: nat, align: nat): (pad: nat)
    requires IsWidth(align)
    ensures pad < align
  {
    (align - off % align) % align
  }

  /** The unsigned number written for a scalar; a char keeps its low octet only. */
  function RawOf(p: Prim, n: int): (raw: nat)
    requires InRange(p, n)
  {
    if p == Char then n % 0x100 else if IsSigned(p) then Unsigned(n, Width(p)) else n
  }

  function WriteWord(size: nat, raw: nat, off: nat): Written
    requires IsWidth(size)
  {
    var pad := Padding(off, size);
    Written([Pad(pad), Word(size, raw)], off + pad + size)
  }

  function Then(a: Written, b: Written): Written {
    Written(a.pieces + b.pieces, b.off)
  }

  /** A nested struct starts counting at 0 again, and the outer count does not move. */
  ghost function Write(ty: Ty, v: Val, off: nat): Written
    requires Typed(ty, v)
    decreases ty, 1, 0
  {
    match ty
    case Scalar(p) => WriteWord(Width(p), RawOf(p, v.n), off)
    case Text =>
      var len := WriteWord(4, |v.octets| + 1, off);
      Then(len, Written([Plain(v.octets), Word(1, 0)], len.off + |v.octets| + 1))
    case Vec(elem) =>
      var len := WriteWord(4, |v.items|, off);
      Then(len, WriteItems(elem, v.items, len.off))
    case Array(elem, _) => WriteItems(elem, v.items, off)
    case Map(key, val) =>
      var len := WriteWord(4, |v.entries|, off);
      Then(len, WriteEntries(key, val, v.entries, len.off))
    case Nested(fields) => Written(WriteFields(fields, v.vals, 0).pieces, off)
  }

  ghost function WriteItems(elem: Ty, items: seq<Val>, off: nat): Written
    requires forall i :: 0 <= i < |items| ==> Typed(elem, items[i])
    decreases elem, 2, |items|
  {
    if items == [] then Written([], off)
    else
      var first := Write(elem, items[0], off);
      Then(first, WriteItems(elem, items[1..], first.off))
  }

  ghost function WriteEntries(key: Ty, val: Ty, es: seq<Entry>, off: nat): Written
    requires forall i :: 0 <= i < |es| ==> EntryTyped(key, val, es[i])
    decreases Map(key, val), 0, |es|
  {
    if es == [] then Written([], off)
    else
      assert EntryTyped(key, val, es[0]);
      var k := Write(key, es[0].key, off);
      var v := Write(val, es[0].val, k.off);
      Then(Then(k, v), WriteEntries(key, val, es[1..], v.off))
  }

  ghost function WriteFields(fields: Fields, vals: seq<Val>, off: nat): Written
    requires FieldsTyped(fields, vals)
    decreases fields, 1, 0
  {
    match fields
    case NoFields => Written([], off)
    case Field(ty, rest) =>
      var first := Write(ty, vals[0], off);
      Then(first, WriteFields(rest, vals[1..], first.off))
  }

  /** A whole sample: a struct written from offset 0. */
  ghost function WriteStruct(fields: Fields, vals: seq<Val>): Written
    requires FieldsTyped(fields, vals)
  {
    WriteFields(fields, vals, 0)
  }

  function Zeros(count: nat): (bs: seq<Octet>)
    ensures |bs| == count
  {
    seq(count, _ => 0)
  }

  function PieceOctets(p: Piece, e: Endianness): seq<Octet> {
    match p
    case Pad(count) => Zeros(count)
    case Word(size, raw) => Spell(raw, size, e)
    case Plain(octets) => octets
  }

  function Bytes(pieces: seq<Piece>, e: Endianness): seq<Octet> {
    if pieces == [] then [] else PieceOctets(pieces[0], e) + Bytes(pieces[1..], e)
  }

  lemma {:induction false} BytesConcat(a: seq<Piece>, b: seq<Piece>, e: Endianness)
    ensures Bytes(a + b, e) == Bytes(a, e) + Bytes(b, e)
  {
    if a == [] {
      assert a + b == b;
    } else {
      hide PieceOctets;
      BytesConcat(a[1..], b, e);
      assert (a + b)[1..] == a[1..] + b;
      Octets.Regroup(PieceOctets(a[0], e), Bytes(a[1..], e), Bytes(b, e));
    }
  }

  // ---- reading ----

  datatype Read = Read(val: Val, rest: seq<Octet>, off: nat)

  /** A read error is handed on to the caller; a panic is not. */
  datatype Reading<+T> = Ok(value: T) | ReadError | Panic {
    function Failure<U>(): (r: Reading<U>)
      requires !Ok?
    {
      if Panic? then Panic else ReadError
    }
  }

  datatype EntryRead = EntryRead(entry: Entry, rest: seq<Octet>, off: nat)

  datatype WordRead = WordRead(raw: nat, rest: seq<Octet>, off: nat)

  /** skip_bytes for the padding, then a number of `size` octets. */
  function ReadWord(size: nat, bs: seq<Octet>, off: nat, e: Endianness): Option<WordRead>
    requires IsWidth(size)
  {
    var pad := Padding(off, size);
    if |bs| < pad + size then None
    else Some(WordRead(Value(bs[pad..pad + size], e), bs[pad + size..], off + pad + size))
  }

  function NumberOf(p: Prim, raw: nat): int {
    if p == Bool then (if raw == 0 then 0 else 1)
    else if IsSigned(p) then Signed(raw, Width(p))
    else raw
  }

  /** HashMap::insert and BTreeMap::insert: a known key gets the new value. */
  function Insert(es: seq<Entry>, key: Val, val: Val): seq<Entry> {
    if es == [] then [Entry(key, val)]
    else if es[0].key == key then [Entry(key, val)] + es[1..]
    else [es[0]] + Insert(es[1..], key, val)
  }

  /** Rust gives a value of such a type no memory, and so a vector of them any capacity. */
  predicate ZeroSized(ty: Ty) {
    match ty
    case Array(elem, len) => len == 0 || ZeroSized(elem)
    case Nested(fields) => ZeroSizedFields(fields)
    case _ => false
  }

  predicate ZeroSizedFields(fields: Fields) {
    match fields
    case NoFields => true
    case Field(ty, rest) => ZeroSized(ty) && ZeroSizedFields(rest)
  }

  /** What the emitted reader makes of `bs`. A vector's length goes into with_capacity as
      an unsigned number: a negative one is too large a capacity. */
  function ReadVal(ty: Ty, bs: seq<Octet>, off: nat, e: Endianness): Reading<Read>
    decreases ty, 1, 0
  {
    match ty
    case Scalar(p) =>
      (match ReadWord(Width(p), bs, off, e)
       case None => ReadError
       case Some(w) => Ok(Read(Number(NumberOf(p, w.raw)), w.rest, w.off)))
    case Text =>
      (match ReadWord(4, bs, off, e)
       case None => ReadError
       case Some(w) =>
         var len := Signed(w.raw, 4);
         if len < 1 || |w.rest| < len || !IsUtf8(w.rest[..len - 1]) then ReadError
         else Ok(Read(Str(w.rest[..len - 1]), w.rest[len..], w.off + len)))
    case Vec(elem) =>
      (match ReadWord(4, bs, off, e)
       case None => ReadError
       case Some(w) =>
         var len := Signed(w.raw, 4);
         if len >= 0 then ReadItems(elem, len, [], w.rest, w.off, e)
         else if ZeroSized(elem) then Ok(Read(Items([]), w.rest, w.off))
         else Panic)
    case Array(elem, len) => ReadItems(elem, len, [], bs, off, e)
    case Map(key, val) =>
      (match ReadWord(4, bs, off, e)
       case None => ReadError
       case Some(w) => ReadEntries(key, val, Signed(w.raw, 4), [], w.rest, w.off, e))
    case Nested(fields) =>
      (match ReadFields(fields, [], bs, 0, e)
       case Ok(r) => Ok(r.(off := off))
       case ReadError => ReadError
       case Panic => Panic)
  }

  function ReadItems(elem: Ty, count: nat, done: seq<Val>, bs: seq<Octet>, off: nat, e: Endianness): Reading<Read>
    decreases elem, 2, count
  {
    if count == 0 then Ok(Read(Items(done), bs, off))
    else
      match ReadVal(elem, bs, off, e)
      case Ok(r) => ReadItems(elem, count - 1, done + [r.val], r.rest, r.off, e)
      case ReadError => ReadError
      case Panic => Panic
  }

  /** A negative count reads no entry at all. */
  function ReadEntries(key: Ty, val: Ty, count: int, done: seq<Entry>, bs: seq<Octet>, off: nat, e: Endianness): Reading<Read>
    decreases Map(key, val), 0, count
  {
    if count <= 0 then Ok(Read(Entries(done), bs, off))
    else
      match ReadEntry(key, val, bs, off, e)
      case Ok(r) => ReadEntries(key, val, count - 1, Insert(done, r.entry.key, r.entry.val), r.rest, r.off, e)
      case ReadError => ReadError
      case Panic => Panic
  }

  function ReadEntry(key: Ty, val: Ty, bs: seq<Octet>, off: nat, e: Endianness): Reading<EntryRead>
    decreases Map(key, val), 0, 0
  {
    match ReadVal(key, bs, off, e)
    case ReadError => ReadError
    case Panic => Panic
    case Ok(k) =>
      match ReadVal(val, k.rest, k.off, e)
      case ReadError => ReadError
      case Panic => Panic
      case Ok(v) => Ok(EntryRead(Entry(k.val, v.val), v.rest, v.off))
  }

  function ReadFields(fields: Fields, done: seq<Val>, bs: seq<Octet>, off: nat, e: Endianness): Reading<Read>
    decreases fields, 1, 0
  {
    match fields
    case NoFields => Ok(Read(Record(done), bs, off))
    case Field(ty, rest) =>
      match ReadVal(ty, bs, off, e)
      case Ok(r) => ReadFields(rest, done + [r.val], r.rest, r.off, e)
      case ReadError => ReadError
      case Panic => Panic
  }

  // ---- round trip ----

  /** What survives the trip: a char is cut to its low octet. */
  ghost function Narrow(ty: Ty, v: Val): Val
    requires Typed(ty, v)
    decreases ty, 1, 0
  {
    match ty
    case Scalar(p) => if p == Char then Number(v.n % 0x100) else v
    case Text => v
    case Vec(elem) => Items(NarrowItems(elem, v.items))
    case Array(elem, _) => Items(NarrowItems(elem, v.items))
    case Map(key, val) => Entries(InsertAll([], NarrowEntries(key, val, v.entries)))
    case Nested(fields) => Record(NarrowFields(fields, v.vals))
  }

  ghost function NarrowItems(elem: Ty, items: seq<Val>): seq<Val>
    requires forall i :: 0 <= i < |items| ==> Typed(elem, items[i])
    decreases elem, 2, |items|
  {
    if items == [] then [] else [Narrow(elem, items[0])] + NarrowItems(elem, items[1..])
  }

  /** The entries as they are read, before equal keys are merged. */
  ghost function NarrowEntries(key: Ty, val: Ty, es: seq<Entry>): seq<Entry>
    requires forall i :: 0 <= i < |es| ==> EntryTyped(key, val, es[i])
    decreases Map(key, val), 0, |es|
  {
    if es == [] then []
    else
      assert EntryTyped(key, val, es[0]);
      [Entry(Narrow(key, es[0].key), Narrow(val, es[0].val))] + NarrowEntries(key, val, es[1..])
  }

  function InsertAll(done: seq<Entry>, es: seq<Entry>): seq<Entry>
    decreases |es|
  {
    if es == [] then done else InsertAll(Insert(done, es[0].key, es[0].val), es[1..])
  }

  ghost function NarrowFields(fields: Fields, vals: seq<Val>): seq<Val>
    requires FieldsTyped(fields, vals)
    decreases fields, 1, 0
  {
    match fields
    case NoFields => []
    case Field(ty, rest) => [Narrow(ty, vals[0])] + NarrowFields(rest, vals[1..])
  }

  lemma WordBytes(size: nat, raw: nat, off: nat, e: Endianness)
    requires IsWidth(size)
    ensures Bytes(WriteWord(size, raw, off).pieces, e) == Zeros(Padding(off, size)) + Spell(raw, size, e)
  {
    var ps := WriteWord(size, raw, off).pieces;
    assert ps[1..] == [Word(size, raw)];
    assert Bytes([Word(size, raw)], e) == Spell(raw, size, e) + [];
  }

  lemma WordSlices(pad: seq<Octet>, word: seq<Octet>, tail: seq<Octet>)
    ensures var bs := pad + word + tail;
      bs[|pad|..|pad| + |word|] == word && bs[|pad| + |word|..] == tail
  {
  }

  lemma WordRoundTrip(size: nat, raw: nat, off: nat, e: Endianness, tail: seq<Octet>)
    requires IsWidth(size) && raw < Power(size)
    ensures var w := WriteWord(size, raw, off);
      ReadWord(size, Bytes(w.pieces, e) + tail, off, e) == Some(WordRead(raw, tail, w.off))
  {
    hide Bytes, Spell, Octets.Value, Zeros;
    WordBytes(size, raw, off, e);
    SpellRoundTrip(raw, size, e);
    WordSlices(Zeros(Padding(off, size)), Spell(raw, size, e), tail);
  }

  lemma RawFits(p: Prim, n: int)
    requires InRange(p, n)
    ensures RawOf(p, n) < Power(Width(p))
    ensures NumberOf(p, RawOf(p, n)) == if p == Char then n % 0x100 else n
  {
    Powers();
    if IsSigned(p) {
      SignedRoundTrip(n, Width(p));
    }
  }

  lemma LengthFits(len: nat)
    requires len < LENGTH_LIMIT
    ensures len < Power(4) && Signed(len, 4) == len
  {
  }

  lemma Regroup(a: seq<Piece>, b: seq<Piece>, e: Endianness, tail: seq<Octet>)
    ensures Bytes(a + b, e) + tail == Bytes(a, e) + (Bytes(b, e) + tail)
  {
    BytesConcat(a, b, e);
  }

  lemma TextRoundTrip(v: Val, off: nat, e: Endianness, tail: seq<Octet>)
    requires Typed(Text, v)
    ensures var w := Write(Text, v, off);
      ReadVal(Text, Bytes(w.pieces, e) + tail, off, e) == Ok(Read(v, tail, w.off))
  {
    hide Bytes, Spell, ReadWord, WriteWord, Signed;
    var n := |v.octets| + 1;
    LengthFits(n);
    var len := WriteWord(4, n, off);
    var body := [Plain(v.octets), Word(1, 0)];
    Regroup(len.pieces, body, e, tail);
    TextBody(v.octets, e);
    TextSlices(v.octets, Spell(0, 1, e), tail);
    WordRoundTrip(4, n, off, e, Bytes(body, e) + tail);
  }

  lemma TextBody(octets: seq<Octet>, e: Endianness)
    ensures Bytes([Plain(octets), Word(1, 0)], e) == octets + Spell(0, 1, e)
  {
    var body := [Plain(octets), Word(1, 0)];
    assert body[1..] == [Word(1, 0)] && Bytes([Word(1, 0)], e) == Spell(0, 1, e) + [];
  }

  lemma TextSlices(octets: seq<Octet>, zero: seq<Octet>, tail: seq<Octet>)
    requires |zero| == 1
    ensures var bs := octets + zero + tail;
      bs[..|octets|] == octets && bs[|octets| + 1..] == tail
  {
  }

  /** Reading a value's own bytes gives the value, with every char cut to its low octet,
      uses up exactly those bytes and leaves __cdr_offset where the writer left it. */
  lemma {:induction false} RoundTrip(ty: Ty, v: Val, off: nat, e: Endianness, tail: seq<Octet>)
    requires Typed(ty, v)
    ensures var w := Write(ty, v, off);
      ReadVal(ty, Bytes(w.pieces, e) + tail, off, e) == Ok(Read(Narrow(ty, v), tail, w.off))
    decreases ty, 1, 0
  {
    match ty
    case Scalar(p) =>
      RawFits(p, v.n);
      WordRoundTrip(Width(p), RawOf(p, v.n), off, e, tail);
    case Text => TextRoundTrip(v, off, e, tail);
    case Vec(elem) =>
      var len := WriteWord(4, |v.items|, off);
      var body := WriteItems(elem, v.items, len.off);
      LengthFits(|v.items|);
      Regroup(len.pieces, body.pieces, e, tail);
      WordRoundTrip(4, |v.items|, off, e, Bytes(body.pieces, e) + tail);
      ItemsRoundTrip(elem, v.items, [], len.off, e, tail);
      assert [] + NarrowItems(elem, v.items) == NarrowItems(elem, v.items);
    case Array(elem, len) =>
      ItemsRoundTrip(elem, v.items, [], off, e, tail);
      assert [] + NarrowItems(elem, v.items) == NarrowItems(elem, v.items);
    case Map(key, val) =>
      var len := WriteWord(4, |v.entries|, off);
      var body := WriteEntries(key, val, v.entries, len.off);
      LengthFits(|v.entries|);
      Regroup(len.pieces, body.pieces, e, tail);
      WordRoundTrip(4, |v.entries|, off, e, Bytes(body.pieces, e) + tail);
      EntriesRoundTrip(key, val, v.entries, [], len.off, e, tail);
    case Nested(fields) =>
      FieldsRoundTrip(fields, v.vals, [], 0, e, tail);
      assert [] + NarrowFields(fields, v.vals) == NarrowFields(fields, v.vals);
  }

  lemma {:induction false} ItemsRoundTrip(elem: Ty, items: seq<Val>, done: seq<Val>, off: nat, e: Endianness, tail: seq<Octet>)
    requires forall i :: 0 <= i < |items| ==> Typed(elem, items[i])
    ensures var w := WriteItems(elem, items, off);
      ReadItems(elem, |items|, done, Bytes(w.pieces, e) + tail, off, e)
        == Ok(Read(Items(done + NarrowItems(elem, items)), tail, w.off))
    decreases elem, 2, |items|
  {
    if items == [] {
      assert done + NarrowItems(elem, items) == done;
      assert Bytes([], e) + tail == tail;
    } else {
      var first := Write(elem, items[0], off);
      var rest := WriteItems(elem, items[1..], first.off);
      Regroup(first.pieces, rest.pieces, e, tail);
      RoundTrip(elem, items[0], off, e, Bytes(rest.pieces, e) + tail);
      ItemsRoundTrip(elem, items[1..], done + [Narrow(elem, items[0])], first.off, e, tail);
      assert done + [Narrow(elem, items[0])] + NarrowItems(elem, items[1..]) == done + NarrowItems(elem, items);
    }
  }

  lemma ReadOneEntry(key: Ty, val: Ty, count: int, done: seq<Entry>, bs: seq<Octet>, off: nat, e: Endianness, k: Read, v: Read)
    requires count > 0 && ReadVal(key, bs, off, e) == Ok(k) && ReadVal(val, k.rest, k.off, e) == Ok(v)
    ensures ReadEntries(key, val, count, done, bs, off, e)
         == ReadEntries(key, val, count - 1, Insert(done, k.val, v.val), v.rest, v.off, e)
  {
  }

  lemma Regroup3(a: seq<Piece>, b: seq<Piece>, c: seq<Piece>, e: Endianness, tail: seq<Octet>)
    ensures Bytes(a + b + c, e) + tail == Bytes(a, e) + (Bytes(b, e) + (Bytes(c, e) + tail))
  {
    Regroup(a + b, c, e, tail);
    Regroup(a, b, e, Bytes(c, e) + tail);
  }

  lemma {:induction false} EntryRoundTrip(key: Ty, val: Ty, entry: Entry, count: int, done: seq<Entry>,
                                          off: nat, e: Endianness, after: seq<Octet>)
    requires Typed(key, entry.key) && Typed(val, entry.val) && count > 0
    ensures var k := Write(key, entry.key, off);
      var v := Write(val, entry.val, k.off);
      ReadEntries(key, val, count, done, Bytes(k.pieces, e) + (Bytes(v.pieces, e) + after), off, e)
        == ReadEntries(key, val, count - 1, Insert(done, Narrow(key, entry.key), Narrow(val, entry.val)), after, v.off, e)
    decreases Map(key, val), 0, 0
  {
    var k := Write(key, entry.key, off);
    var v := Write(val, entry.val, k.off);
    var rest := Bytes(v.pieces, e) + after;
    RoundTrip(key, entry.key, off, e, rest);
    RoundTrip(val, entry.val, k.off, e, after);
    ReadOneEntry(key, val, count, done, Bytes(k.pieces, e) + rest, off, e,
                 Read(Narrow(key, entry.key), rest, k.off), Read(Narrow(val, entry.val), after, v.off));
  }

  lemma InsertAllStep(done: seq<Entry>, x: Entry, xs: seq<Entry>)
    ensures InsertAll(done, [x] + xs) == InsertAll(Insert(done, x.key, x.val), xs)
  {
  }

  lemma {:induction false} EntriesRoundTrip(key: Ty, val: Ty, es: seq<Entry>, done: seq<Entry>, off: nat, e: Endianness, tail: seq<Octet>)
    requires forall i :: 0 <= i < |es| ==> EntryTyped(key, val, es[i])
    ensures var w := WriteEntries(key, val, es, off);
      ReadEntries(key, val, |es|, done, Bytes(w.pieces, e) + tail, off, e)
        == Ok(Read(Entries(InsertAll(done, NarrowEntries(key, val, es))), tail, w.off))
    decreases Map(key, val), 0, |es|
  {
    hide Typed, ReadEntries, InsertAll, Insert, Bytes, Write, Narrow, WriteEntries, NarrowEntries;
    if es == [] {
      NoEntries(key, val, done, off, e, tail);
    } else {
      EntriesUnfold(key, val, es, off);
      var k := Write(key, es[0].key, off);
      var v := Write(val, es[0].val, k.off);
      var nk, nv := Narrow(key, es[0].key), Narrow(val, es[0].val);
      EntriesRoundTrip(key, val, es[1..], Insert(done, nk, nv), v.off, e, tail);
      var rest := WriteEntries(key, val, es[1..], v.off);
      Regroup3(k.pieces, v.pieces, rest.pieces, e, tail);
      EntryRoundTrip(key, val, es[0], |es|, done, off, e, Bytes(rest.pieces, e) + tail);
      InsertAllStep(done, Entry(nk, nv), NarrowEntries(key, val, es[1..]));
    }
  }

  lemma NoEntries(key: Ty, val: Ty, done: seq<Entry>, off: nat, e: Endianness, tail: seq<Octet>)
    ensures WriteEntries(key, val, [], off) == Written([], off) && NarrowEntries(key, val, []) == []
    ensures ReadEntries(key, val, 0, done, Bytes([], e) + tail, off, e) == Ok(Read(Entries(InsertAll(done, [])), tail, off))
  {
    assert Bytes([], e) + tail == tail;
  }

  lemma EntriesUnfold(key: Ty, val: Ty, es: seq<Entry>, off: nat)
    requires es != [] && forall i :: 0 <= i < |es| ==> EntryTyped(key, val, es[i])
    ensures EntryTyped(key, val, es[0]) && forall i :: 0 <= i < |es[1..]| ==> EntryTyped(key, val, es[1..][i])
    ensures NarrowEntries(key, val, es)
         == [Entry(Narrow(key, es[0].key), Narrow(val, es[0].val))] + NarrowEntries(key, val, es[1..])
    ensures var k := Write(key, es[0].key, off);
      var v := Write(val, es[0].val, k.off);
      var rest := WriteEntries(key, val, es[1..], v.off);
      WriteEntries(key, val, es, off) == Written(k.pieces + v.pieces + rest.pieces, rest.off)
  {
  }

  lemma {:induction false} FieldsRoundTrip(fields: Fields, vals: seq<Val>, done: seq<Val>, off: nat, e: Endianness, tail: seq<Octet>)
    requires FieldsTyped(fields, vals)
    ensures var w := WriteFields(fields, vals, off);
      ReadFields(fields, done, Bytes(w.pieces, e) + tail, off, e)
        == Ok(Read(Record(done + NarrowFields(fields, vals)), tail, w.off))
    decreases fields, 1, 0
  {
    match fields
    case NoFields =>
      assert done + NarrowFields(fields, vals) == done;
      assert Bytes([], e) + tail == tail;
    case Field(ty, more) =>
      var first := Write(ty, vals[0], off);
      var rest := WriteFields(more, vals[1..], first.off);
      Regroup(first.pieces, rest.pieces, e, tail);
      RoundTrip(ty, vals[0], off, e, Bytes(rest.pieces, e) + tail);
      FieldsRoundTrip(more, vals[1..], done + [Narrow(ty, vals[0])], first.off, e, tail);
      assert done + [Narrow(ty, vals[0])] + NarrowFields(more, vals[1..]) == done + NarrowFields(fields, vals);
  }

  // ---- when nothing is lost ----

  /** Every char in the value is below 256. */
  ghost predicate CharsFit(ty: Ty, v: Val)
    requires Typed(ty, v)
    decreases ty
  {
    match ty
    case Scalar(p) => p == Char ==> v.n < 0x100
    case Text => true
    case Vec(elem) => forall i :: 0 <= i < |v.items| ==> CharsFit(elem, v.items[i])
    case Array(elem, _) => forall i :: 0 <= i < |v.items| ==> CharsFit(elem, v.items[i])
    case Map(key, val) => forall i :: 0 <= i < |v.entries| ==> CharsFit(key, v.entries[i].key) && CharsFit(val, v.entries[i].val)
    case Nested(fields) => FieldCharsFit(fields, v.vals)
  }

  ghost predicate FieldCharsFit(fields: Fields, vals: seq<Val>)
    requires FieldsTyped(fields, vals)
    decreases fields
  {
    match fields
    case NoFields => true
    case Field(ty, rest) => CharsFit(ty, vals[0]) && FieldCharsFit(rest, vals[1..])
  }

  lemma {:induction false} InsertNew(es: seq<Entry>, key: Val, val: Val)
    requires forall i :: 0 <= i < |es| ==> es[i].key != key
    ensures Insert(es, key, val) == es + [Entry(key, val)]
  {
    if es != [] {
      InsertNew(es[1..], key, val);
    }
  }

  lemma {:induction false} InsertLength(es: seq<Entry>, key: Val, val: Val)
    ensures |es| <= |Insert(es, key, val)| <= |es| + 1
    ensures |Insert(es, key, val)| == |es| + 1 ==> forall i :: 0 <= i < |es| ==> es[i].key != key
  {
    if es != [] {
      InsertLength(es[1..], key, val);
    }
  }

  /** As many entries come back as went in only if no two keys are equal, and then they
      come back in order. */
  lemma {:induction false} InsertAllKept(done: seq<Entry>, es: seq<Entry>)
    ensures var r := InsertAll(done, es);
      |r| <= |done| + |es| && (|r| == |done| + |es| ==> r == done + es)
    decreases |es|
  {
    if es == [] {
      assert done + es == done;
    } else {
      InsertLength(done, es[0].key, es[0].val);
      InsertAllKept(Insert(done, es[0].key, es[0].val), es[1..]);
      if |InsertAll(done, es)| == |done| + |es| {
        InsertNew(done, es[0].key, es[0].val);
        assert done + es == done + [Entry(es[0].key, es[0].val)] + es[1..];
      }
    }
  }

  lemma {:induction false} InsertAllDistinct(done: seq<Entry>, es: seq<Entry>)
    requires DistinctKeys(done + es)
    ensures InsertAll(done, es) == done + es
    decreases |es|
  {
    if es == [] {
      assert done + es == done;
    } else {
      forall i | 0 <= i < |done| ensures done[i].key != es[0].key {
        assert (done + es)[i].key != (done + es)[|done|].key;
      }
      InsertNew(done, es[0].key, es[0].val);
      assert done + es == done + [Entry(es[0].key, es[0].val)] + es[1..];
      InsertAllDistinct(Insert(done, es[0].key, es[0].val), es[1..]);
    }
  }

  lemma {:induction false} NarrowItemsAt(elem: Ty, items: seq<Val>)
    requires forall i :: 0 <= i < |items| ==> Typed(elem, items[i])
    ensures |NarrowItems(elem, items)| == |items|
    ensures forall i :: 0 <= i < |items| ==> NarrowItems(elem, items)[i] == Narrow(elem, items[i])
    decreases |items|
  {
    if items != [] {
      NarrowItemsAt(elem, items[1..]);
    }
  }

  lemma {:induction false} NarrowEntriesAt(key: Ty, val: Ty, es: seq<Entry>)
    requires forall i :: 0 <= i < |es| ==> EntryTyped(key, val, es[i])
    ensures |NarrowEntries(key, val, es)| == |es|
    ensures forall i :: 0 <= i < |es| ==>
      NarrowEntries(key, val, es)[i] == Entry(Narrow(key, es[i].key), Narrow(val, es[i].val))
    decreases |es|
  {
    if es != [] {
      NarrowEntriesAt(key, val, es[1..]);
    }
  }

  /** The round trip gives the value back exactly when all its chars are below 256. */
  lemma {:induction false} NarrowIsSame(ty: Ty, v: Val)
    requires Typed(ty, v)
    ensures Narrow(ty, v) == v <==> CharsFit(ty, v)
    decreases ty, 1
  {
    match ty
    case Scalar(p) =>
    case Text =>
    case Vec(elem) => ItemsSame(elem, v.items);
    case Array(elem, len) => ItemsSame(elem, v.items);
    case Map(key, val) => MapSame(key, val, v.entries);
    case Nested(fields) => FieldsSame(fields, v.vals);
  }

  lemma {:induction false} ItemsSame(elem: Ty, items: seq<Val>)
    requires forall i :: 0 <= i < |items| ==> Typed(elem, items[i])
    ensures NarrowItems(elem, items) == items <==> forall i :: 0 <= i < |items| ==> CharsFit(elem, items[i])
    decreases elem, 2
  {
    NarrowItemsAt(elem, items);
    forall i | 0 <= i < |items|
      ensures Narrow(elem, items[i]) == items[i] <==> CharsFit(elem, items[i])
    {
      NarrowIsSame(elem, items[i]);
    }
  }

  lemma {:induction false} EntriesSame(key: Ty, val: Ty, es: seq<Entry>)
    requires forall i :: 0 <= i < |es| ==> EntryTyped(key, val, es[i])
    ensures NarrowEntries(key, val, es) == es
      <==> forall i :: 0 <= i < |es| ==> CharsFit(key, es[i].key) && CharsFit(val, es[i].val)
    decreases Map(key, val), 0, 0
  {
    NarrowEntriesAt(key, val, es);
    forall i | 0 <= i < |es|
      ensures NarrowEntries(key, val, es)[i] == es[i] <==> CharsFit(key, es[i].key) && CharsFit(val, es[i].val)
    {
      NarrowIsSame(key, es[i].key);
      NarrowIsSame(val, es[i].val);
    }
  }

  lemma {:induction false} MapSame(key: Ty, val: Ty, es: seq<Entry>)
    requires DistinctKeys(es) && forall i :: 0 <= i < |es| ==> EntryTyped(key, val, es[i])
    ensures InsertAll([], NarrowEntries(key, val, es)) == es
      <==> forall i :: 0 <= i < |es| ==> CharsFit(key, es[i].key) && CharsFit(val, es[i].val)
    decreases Map(key, val), 0, 1
  {
    EntriesSame(key, val, es);
    NarrowEntriesAt(key, val, es);
    Merged(NarrowEntries(key, val, es), es);
  }

  lemma Merged(narrowed: seq<Entry>, es: seq<Entry>)
    requires |narrowed| == |es| && DistinctKeys(es)
    ensures InsertAll([], narrowed) == es <==> narrowed == es
  {
    assert [] + narrowed == narrowed;
    InsertAllKept([], narrowed);
    if narrowed == es {
      InsertAllDistinct([], narrowed);
    }
  }

  lemma {:induction false} FieldsSame(fields: Fields, vals: seq<Val>)
    requires FieldsTyped(fields, vals)
    ensures NarrowFields(fields, vals) == vals <==> FieldCharsFit(fields, vals)
    decreases fields, 1
  {
    match fields
    case NoFields =>
    case Field(ty, rest) =>
      NarrowIsSame(ty, vals[0]);
      FieldsSame(rest, vals[1..]);
      assert vals == [vals[0]] + vals[1..];
      assert NarrowFields(fields, vals)[1..] == NarrowFields(rest, vals[1..]);
  }

  /** A sample of any struct type comes back as it was exactly when its chars are below
      256, in either byte order, with nothing of the buffer left over or touched. */
  lemma StructRoundTrip(fields: Fields, vals: seq<Val>, e: Endianness, tail: seq<Octet>)
    requires FieldsTyped(fields, vals)
    ensures var w := WriteStruct(fields, vals);
      var r := ReadFields(fields, [], Bytes(w.pieces, e) + tail, 0, e);
      && r.Ok? && r.value.rest == tail && r.value.off == w.off
      && (r.value.val == Record(vals) <==> FieldCharsFit(fields, vals))
  {
    FieldsRoundTrip(fields, vals, [], 0, e, tail);
    assert [] + NarrowFields(fields, vals) == NarrowFields(fields, vals);
    FieldsSame(fields, vals);
  }

  // ---- alignment ----

  predicate Flat(ty: Ty) {
    match ty
    case Scalar(_) | Text => true
    case Vec(elem) => Flat(elem)
    case Array(elem, _) => Flat(elem)
    case Map(key, val) => Flat(key) && Flat(val)
    case Nested(_) => false
  }

  predicate FlatFields(fields: Fields) {
    match fields
    case NoFields => true
    case Field(ty, rest) => Flat(ty) && FlatFields(rest)
  }

  function PieceSize(p: Piece): nat {
    match p
    case Pad(count) => count
    case Word(size, _) => size
    case Plain(octets) => |octets|
  }

  function Size(pieces: seq<Piece>): nat {
    if pieces == [] then 0 else PieceSize(pieces[0]) + Size(pieces[1..])
  }

  lemma {:induction false} SizeIsBytes(pieces: seq<Piece>, e: Endianness)
    ensures |Bytes(pieces, e)| == Size(pieces)
  {
    if pieces != [] {
      SizeIsBytes(pieces[1..], e);
    }
  }

  lemma {:induction false} SizeConcat(a: seq<Piece>, b: seq<Piece>)
    ensures Size(a + b) == Size(a) + Size(b)
  {
    if a == [] {
      assert a + b == b;
    } else {
      SizeConcat(a[1..], b);
      assert (a + b)[1..] == a[1..] + b;
    }
  }

  /** Put at position `start`, every word begins at a multiple of its size. */
  ghost predicate Aligned(pieces: seq<Piece>, start: int) {
    forall i :: 0 <= i < |pieces| && pieces[i].Word? ==> WordAt(pieces, start, i)
  }

  ghost predicate WordAt(pieces: seq<Piece>, start: int, i: nat)
    requires i < |pieces| && pieces[i].Word?
  {
    IsWidth(pieces[i].size) && (start + Size(pieces[..i])) % pieces[i].size == 0
  }

  lemma WordInConcat(a: seq<Piece>, b: seq<Piece>, start: int, i: nat)
    requires i < |a + b| && (a + b)[i].Word?
    ensures WordAt(a + b, start, i) <==> if i < |a| then WordAt(a, start, i) else WordAt(b, start + Size(a), i - |a|)
  {
    if i < |a| {
      assert (a + b)[..i] == a[..i];
    } else {
      var j := i - |a|;
      assert (a + b)[..i] == a + b[..j];
      SizeConcat(a, b[..j]);
    }
  }

  lemma AlignedConcat(a: seq<Piece>, b: seq<Piece>, start: int)
    ensures Aligned(a + b, start) <==> Aligned(a, start) && Aligned(b, start + Size(a))
  {
    hide WordAt;
    forall i | 0 <= i < |a + b| && (a + b)[i].Word?
      ensures WordAt(a + b, start, i) <==> if i < |a| then WordAt(a, start, i) else WordAt(b, start + Size(a), i - |a|)
    {
      WordInConcat(a, b, start, i);
    }
    if Aligned(a + b, start) {
      forall i | 0 <= i < |a| && a[i].Word?
        ensures WordAt(a, start, i)
      {
        assert (a + b)[i] == a[i];
      }
      forall i | 0 <= i < |b| && b[i].Word?
        ensures WordAt(b, start + Size(a), i)
      {
        assert (a + b)[|a| + i] == b[i];
      }
    }
  }

  // ---- exactly when a value is aligned ----

  /** The octets of `w`, begun at offset `off`, that __cdr_offset passes over: those of the
      structs inside. */
  function Uncounted(w: Written, off: nat): int {
    off + Size(w.pieces) - w.off
  }

  /** `v`, begun at offset `off` when `lag` octets before it went uncounted, is aligned: at
      every number and length prefix the uncounted octets are a multiple of its size. */
  ghost predicate InStep(ty: Ty, v: Val, off: nat, lag: int)
    requires Typed(ty, v)
    decreases ty, 1, 0
  {
    match ty
    case Scalar(p) => lag % Width(p) == 0
    case Text => lag % 4 == 0
    case Vec(elem) => lag % 4 == 0 && ItemsInStep(elem, v.items, WriteWord(4, |v.items|, off).off, lag)
    case Array(elem, _) => ItemsInStep(elem, v.items, off, lag)
    case Map(key, val) => lag % 4 == 0 && EntriesInStep(key, val, v.entries, WriteWord(4, |v.entries|, off).off, lag)
    case Nested(fields) => FieldsInStep(fields, v.vals, 0, off + lag)
  }

  ghost predicate ItemsInStep(elem: Ty, items: seq<Val>, off: nat, lag: int)
    requires forall i :: 0 <= i < |items| ==> Typed(elem, items[i])
    decreases elem, 2, |items|
  {
    items == [] ||
    (var first := Write(elem, items[0], off);
     InStep(elem, items[0], off, lag) && ItemsInStep(elem, items[1..], first.off, lag + Uncounted(first, off)))
  }

  ghost predicate EntriesInStep(key: Ty, val: Ty, es: seq<Entry>, off: nat, lag: int)
    requires forall i :: 0 <= i < |es| ==> EntryTyped(key, val, es[i])
    decreases Map(key, val), 0, |es|
  {
    es == [] ||
    (assert EntryTyped(key, val, es[0]);
     var k := Write(key, es[0].key, off);
     var v := Write(val, es[0].val, k.off);
     && InStep(key, es[0].key, off, lag) && InStep(val, es[0].val, k.off, lag + Uncounted(k, off))
     && EntriesInStep(key, val, es[1..], v.off, lag + Uncounted(k, off) + Uncounted(v, k.off)))
  }

  ghost predicate FieldsInStep(fields: Fields, vals: seq<Val>, off: nat, lag: int)
    requires FieldsTyped(fields, vals)
    decreases fields, 1, 0
  {
    match fields
    case NoFields => true
    case Field(ty, rest) =>
      var first := Write(ty, vals[0], off);
      InStep(ty, vals[0], off, lag) && FieldsInStep(rest, vals[1..], first.off, lag + Uncounted(first, off))
  }

  lemma ThenAligned(a: Written, b: Written, off: nat, lag: int)
    ensures Aligned(Then(a, b).pieces, off + lag)
      <==> Aligned(a.pieces, off + lag) && Aligned(b.pieces, a.off + (lag + Uncounted(a, off)))
    ensures Uncounted(Then(a, b), off) == Uncounted(a, off) + Uncounted(b, a.off)
  {
    AlignedConcat(a.pieces, b.pieces, off + lag);
    SizeConcat(a.pieces, b.pieces);
  }

  lemma TwoMore(k: int, lag: int)
    ensures (2 * k + lag) % 2 == lag % 2
  {
    assert 2 * k + lag == 2 * (k + lag / 2) + lag % 2;
  }

  lemma FourMore(k: int, lag: int)
    ensures (4 * k + lag) % 4 == lag % 4
  {
    assert 4 * k + lag == 4 * (k + lag / 4) + lag % 4;
  }

  lemma EightMore(k: int, lag: int)
    ensures (8 * k + lag) % 8 == lag % 8
  {
    assert 8 * k + lag == 8 * (k + lag / 8) + lag % 8;
  }

  lemma MultipleMore(size: nat, a: int, lag: int)
    requires IsWidth(size) && a % size == 0
    ensures (a + lag) % size == 0 <==> lag % size == 0
  {
    if size == 2 {
      TwoMore(a / 2, lag);
    } else if size == 4 {
      FourMore(a / 4, lag);
    } else if size == 8 {
      EightMore(a / 8, lag);
    }
  }

  /** The padding does what it is for. */
  lemma PaddingAligns(off: nat, align: nat)
    requires IsWidth(align)
    ensures (off + Padding(off, align)) % align == 0
  {
    var k := off / align + 1;
    if align == 2 {
      TwoMore(-k, off + Padding(off, 2));
    } else if align == 4 {
      FourMore(-k, off + Padding(off, 4));
    } else if align == 8 {
      EightMore(-k, off + Padding(off, 8));
    }
  }

  lemma WordAligned(size: nat, raw: nat, off: nat, lag: int)
    requires IsWidth(size)
    ensures var w := WriteWord(size, raw, off);
      && Uncounted(w, off) == 0
      && (Aligned(w.pieces, off + lag) <==> lag % size == 0)
  {
    var pad := Padding(off, size);
    var ps := WriteWord(size, raw, off).pieces;
    assert ps[1..] == [Word(size, raw)] && [Word(size, raw)][1..] == [];
    assert ps[..1] == [Pad(pad)] && ps[..1][1..] == [];
    assert Size([Word(size, raw)]) == size + Size([]);
    assert Size(ps[..1]) == pad;
    PaddingAligns(off, size);
    MultipleMore(size, off + pad, lag);
    assert WordAt(ps, off + lag, 1) <==> lag % size == 0;
  }

  lemma TextBodyAligned(octets: seq<Octet>, off: nat, lag: int)
    ensures var w := Written([Plain(octets), Word(1, 0)], off + |octets| + 1);
      Aligned(w.pieces, off + lag) && Uncounted(w, off) == 0
  {
    var ps := [Plain(octets), Word(1, 0)];
    assert ps[1..] == [Word(1, 0)] && [Word(1, 0)][1..] == [];
    assert Size([Word(1, 0)]) == 1 + Size([]);
  }

  /** A length prefix and what it counts. */
  lemma PrefixedAligned(count: nat, rest: Written, off: nat, lag: int)
    ensures var len := WriteWord(4, count, off);
      && Uncounted(Then(len, rest), off) == Uncounted(rest, len.off)
      && (Aligned(Then(len, rest).pieces, off + lag) <==> lag % 4 == 0 && Aligned(rest.pieces, len.off + lag))
  {
    hide Aligned;
    WordAligned(4, count, off, lag);
    ThenAligned(WriteWord(4, count, off), rest, off, lag);
  }

  lemma TextAligned(v: Val, off: nat, lag: int)
    requires Typed(Text, v)
    ensures var w := Write(Text, v, off);
      Uncounted(w, off) == 0 && (Aligned(w.pieces, off + lag) <==> lag % 4 == 0)
  {
    hide Aligned, Uncounted, Padding;
    var len := WriteWord(4, |v.octets| + 1, off);
    TextBodyAligned(v.octets, len.off, lag);
    PrefixedAligned(|v.octets| + 1, Written([Plain(v.octets), Word(1, 0)], len.off + |v.octets| + 1), off, lag);
  }

  /** A value of any type is aligned in the stream exactly when it is in step. */
  lemma {:induction false} AlignedExactly(ty: Ty, v: Val, off: nat, lag: int)
    requires Typed(ty, v)
    ensures Aligned(Write(ty, v, off).pieces, off + lag) <==> InStep(ty, v, off, lag)
    decreases ty, 1, 0
  {
    hide Aligned, Uncounted, Padding, WriteItems, WriteEntries, WriteFields, ItemsInStep, EntriesInStep, FieldsInStep;
    match ty
    case Scalar(p) => WordAligned(Width(p), RawOf(p, v.n), off, lag);
    case Text => TextAligned(v, off, lag);
    case Vec(elem) =>
      var at := WriteWord(4, |v.items|, off).off;
      ItemsAligned(elem, v.items, at, lag);
      PrefixedAligned(|v.items|, WriteItems(elem, v.items, at), off, lag);
    case Array(elem, len) => ItemsAligned(elem, v.items, off, lag);
    case Map(key, val) =>
      var at := WriteWord(4, |v.entries|, off).off;
      EntriesAligned(key, val, v.entries, at, lag);
      PrefixedAligned(|v.entries|, WriteEntries(key, val, v.entries, at), off, lag);
    case Nested(fields) => FieldsAligned(fields, v.vals, 0, off + lag);
  }

  lemma NothingAligned(start: int)
    ensures Aligned([], start)
  {
  }

  lemma {:induction false} ItemsAligned(elem: Ty, items: seq<Val>, off: nat, lag: int)
    requires forall i :: 0 <= i < |items| ==> Typed(elem, items[i])
    ensures Aligned(WriteItems(elem, items, off).pieces, off + lag) <==> ItemsInStep(elem, items, off, lag)
    decreases elem, 2, |items|
  {
    hide Aligned, Uncounted, InStep, Write;
    NothingAligned(off + lag);
    if items != [] {
      var first := Write(elem, items[0], off);
      AlignedExactly(elem, items[0], off, lag);
      ItemsAligned(elem, items[1..], first.off, lag + Uncounted(first, off));
      ThenAligned(first, WriteItems(elem, items[1..], first.off), off, lag);
    }
  }

  lemma {:induction false} EntriesAligned(key: Ty, val: Ty, es: seq<Entry>, off: nat, lag: int)
    requires forall i :: 0 <= i < |es| ==> EntryTyped(key, val, es[i])
    ensures Aligned(WriteEntries(key, val, es, off).pieces, off + lag) <==> EntriesInStep(key, val, es, off, lag)
    decreases Map(key, val), 0, |es|
  {
    hide Aligned, Uncounted, InStep, Write;
    NothingAligned(off + lag);
    if es != [] {
      assert EntryTyped(key, val, es[0]);
      var k := Write(key, es[0].key, off);
      var v := Write(val, es[0].val, k.off);
      var lag1 := lag + Uncounted(k, off);
      AlignedExactly(key, es[0].key, off, lag);
      AlignedExactly(val, es[0].val, k.off, lag1);
      ThenAligned(k, v, off, lag);
      EntriesAligned(key, val, es[1..], v.off, lag1 + Uncounted(v, k.off));
      ThenAligned(Then(k, v), WriteEntries(key, val, es[1..], v.off), off, lag);
    }
  }

  lemma {:induction false} FieldsAligned(fields: Fields, vals: seq<Val>, off: nat, lag: int)
    requires FieldsTyped(fields, vals)
    ensures Aligned(WriteFields(fields, vals, off).pieces, off + lag) <==> FieldsInStep(fields, vals, off, lag)
    decreases fields, 1, 0
  {
    hide Aligned, Uncounted, InStep, Write;
    match fields
    case NoFields => NothingAligned(off + lag);
    case Field(ty, rest) =>
      var first := Write(ty, vals[0], off);
      AlignedExactly(ty, vals[0], off, lag);
      FieldsAligned(rest, vals[1..], first.off, lag + Uncounted(first, off));
      ThenAligned(first, WriteFields(rest, vals[1..], first.off), off, lag);
  }

  // ---- without structs inside ----

  /** Nothing goes uncounted, so everything is in step. */
  lemma {:induction false} FlatInStep(ty: Ty, v: Val, off: nat)
    requires Typed(ty, v) && Flat(ty)
    ensures Uncounted(Write(ty, v, off), off) == 0 && InStep(ty, v, off, 0)
    decreases ty, 1, 0
  {
    hide Uncounted, Padding, WriteItems, WriteEntries, ItemsInStep, EntriesInStep;
    match ty
    case Scalar(p) => WordAligned(Width(p), RawOf(p, v.n), off, 0);
    case Text => TextAligned(v, off, 0);
    case Vec(elem) =>
      var at := WriteWord(4, |v.items|, off).off;
      ItemsFlat(elem, v.items, at);
      PrefixedAligned(|v.items|, WriteItems(elem, v.items, at), off, 0);
    case Array(elem, len) => ItemsFlat(elem, v.items, off);
    case Map(key, val) =>
      var at := WriteWord(4, |v.entries|, off).off;
      EntriesFlat(key, val, v.entries, at);
      PrefixedAligned(|v.entries|, WriteEntries(key, val, v.entries, at), off, 0);
  }

  lemma NothingUncounted(off: nat)
    ensures Uncounted(Written([], off), off) == 0
  {
  }

  lemma {:induction false} ItemsFlat(elem: Ty, items: seq<Val>, off: nat)
    requires Flat(elem) && forall i :: 0 <= i < |items| ==> Typed(elem, items[i])
    ensures Uncounted(WriteItems(elem, items, off), off) == 0 && ItemsInStep(elem, items, off, 0)
    decreases elem, 2, |items|
  {
    hide Uncounted, Write, InStep;
    NothingUncounted(off);
    if items != [] {
      var first := Write(elem, items[0], off);
      FlatInStep(elem, items[0], off);
      ItemsFlat(elem, items[1..], first.off);
      ThenAligned(first, WriteItems(elem, items[1..], first.off), off, 0);
    }
  }

  lemma {:induction false} EntriesFlat(key: Ty, val: Ty, es: seq<Entry>, off: nat)
    requires Flat(key) && Flat(val)
    requires forall i :: 0 <= i < |es| ==> EntryTyped(key, val, es[i])
    ensures Uncounted(WriteEntries(key, val, es, off), off) == 0 && EntriesInStep(key, val, es, off, 0)
    decreases Map(key, val), 0, |es|
  {
    hide Uncounted, Write, InStep, Aligned;
    NothingUncounted(off);
    if es != [] {
      assert EntryTyped(key, val, es[0]);
      var k := Write(key, es[0].key, off);
      var v := Write(val, es[0].val, k.off);
      FlatInStep(key, es[0].key, off);
      FlatInStep(val, es[0].val, k.off);
      ThenAligned(k, v, off, 0);
      EntriesFlat(key, val, es[1..], v.off);
      ThenAligned(Then(k, v), WriteEntries(key, val, es[1..], v.off), off, 0);
    }
  }

  lemma {:induction false} FieldsFlat(fields: Fields, vals: seq<Val>, off: nat)
    requires FieldsTyped(fields, vals) && FlatFields(fields)
    ensures Uncounted(WriteFields(fields, vals, off), off) == 0 && FieldsInStep(fields, vals, off, 0)
    decreases fields
  {
    match fields
    case NoFields =>
    case Field(ty, rest) =>
      var first := Write(ty, vals[0], off);
      FlatInStep(ty, vals[0], off);
      FieldsFlat(rest, vals[1..], first.off);
      ThenAligned(first, WriteFields(rest, vals[1..], first.off), off, 0);
  }

  /** In a whole sample every primitive and every length prefix lands at a multiple of its
      size exactly when the sample is in step. Without structs inside it always is, and
      __cdr_offset then counts the octets written. */
  lemma StructAligned(fields: Fields, vals: seq<Val>, e: Endianness)
    requires FieldsTyped(fields, vals)
    ensures var w := WriteStruct(fields, vals);
      && (Aligned(w.pieces, 0) <==> FieldsInStep(fields, vals, 0, 0))
      && (FlatFields(fields) ==> Aligned(w.pieces, 0) && w.off == |Bytes(w.pieces, e)|)
  {
    hide Aligned, InStep, Write, WriteFields, FieldsInStep, Bytes, Size;
    FieldsAligned(fields, vals, 0, 0);
    SizeIsBytes(WriteStruct(fields, vals).pieces, e);
    if FlatFields(fields) {
      FieldsFlat(fields, vals, 0);
    }
  }

  lemma OneFieldWritten(p: Prim, n: int)
    requires InRange(p, n)
    ensures var fields := Field(Scalar(p), NoFields);
      FieldsTyped(fields, [Number(n)])
      && WriteFields(fields, [Number(n)], 0).pieces == [Pad(0), Word(Width(p), RawOf(p, n))]
  {
  }

  lemma WordTooEarly(pieces: seq<Piece>)
    requires pieces == [Pad(0), Word(1, 7)] + [Pad(0), Word(4, 9)]
    ensures !Aligned(pieces, 0)
  {
    var before := pieces[..3];
    assert before == [Pad(0), Word(1, 7), Pad(0)];
    assert before[1..] == [Word(1, 7), Pad(0)] && before[1..][1..] == [Pad(0)] && before[1..][1..][1..] == [];
    assert Size(before[1..][1..]) == 0 && Size(before[1..]) == 1 && Size(before) == 1;
    assert pieces[3].Word? && !WordAt(pieces, 0, 3);
  }

  /** With a struct inside, alignment can be lost: a u32 after a nested struct holding one
      u8 begins at position 1 of the stream. */
  lemma NestedMisaligns()
    ensures var fields := Field(Nested(Field(Scalar(U8), NoFields)), Field(Scalar(U32), NoFields));
      var vals := [Record([Number(7)]), Number(9)];
      FieldsTyped(fields, vals) && !Aligned(WriteStruct(fields, vals).pieces, 0)
  {
    Powers();
    var inner, rest := Field(Scalar(U8), NoFields), Field(Scalar(U32), NoFields);
    var vals := [Record([Number(7)]), Number(9)];
    OneFieldWritten(U8, 7);
    OneFieldWritten(U32, 9);
    assert vals[1..] == [Number(9)];
    assert Typed(Nested(inner), vals[0]);
    assert FieldsTyped(Field(Nested(inner), rest), vals);
    WordTooEarly(WriteStruct(Field(Nested(inner), rest), vals).pieces);
  }
}
