/** The application's end of a reader: DataReader::take (src/dds/datareader.rs:77-118), and
    how its samples are packed and unpacked (src/message/submessage/element.rs:511-547). */
module DataReaders {
  import opened Types
  import opened HistoryCaches
  import opened Octets
  import C = Cdr
  import O = CdrOctets

  predicate Readable(c: CacheChange) {
    c.kind == Alive && c.data.Some?
  }

  // ---- payloads ----

  datatype Sample = Sample(val: C.Val, timestamp: int)

  /** Representation identifier and options come before the CDR octets. */
  ghost function Packed(fields: C.Fields, vals: seq<C.Val>, e: Endianness): Payload
    requires C.FieldsTyped(fields, vals)
  {
    [0, if e == LittleEndian then 1 else 0, 0, 0] + C.Bytes(C.WriteStruct(fields, vals).pieces, e)
  }

  /** An identifier other than CDR_LE and CDR_BE is a panic, and so are fewer than four octets. */
  function Unpacked(fields: C.Fields, payload: Payload): C.Reading<C.Val> {
    if |payload| < 4 || payload[0] != 0 || payload[1] > 1 then C.Panic
    else
      match C.ReadFields(fields, [], payload[4..], 0, if payload[1] == 1 then LittleEndian else BigEndian)
      case Ok(r) => C.Ok(r.val)
      case ReadError => C.ReadError
      case Panic => C.Panic
  }

  /** What one application writes, another takes: the same sample exactly when its chars are
      below 256, in either byte order. */
  lemma SampleRoundTrip(fields: C.Fields, vals: seq<C.Val>, e: Endianness)
    requires C.FieldsTyped(fields, vals)
    ensures var r := Unpacked(fields, Packed(fields, vals, e));
      r.Ok? && (r.value == C.Record(vals) <==> C.FieldCharsFit(fields, vals))
  {
    hide C.Bytes, C.ReadFields, C.WriteStruct;
    var bs := C.Bytes(C.WriteStruct(fields, vals).pieces, e);
    C.StructRoundTrip(fields, vals, e, []);
    assert bs + [] == bs && Packed(fields, vals, e)[4..] == bs;
  }

  lemma SizeOfThen(a: C.Written, b: C.Written)
    ensures C.Size(C.Then(a, b).pieces) == C.Size(a.pieces) + C.Size(b.pieces)
  {
    C.SizeConcat(a.pieces, b.pieces);
  }

  lemma SizeOfWord(size: nat, raw: nat, off: nat)
    requires C.IsWidth(size)
    ensures C.Size(C.WriteWord(size, raw, off).pieces) >= size
  {
    var ps := C.WriteWord(size, raw, off).pieces;
    assert ps[1..] == [C.Word(size, raw)] && C.Size([C.Word(size, raw)]) == size + C.Size([]);
  }

  /** Nothing is written just of a value that takes no memory. */
  lemma {:induction false} WritesNothing(ty: C.Ty, v: C.Val, off: nat)
    requires C.Typed(ty, v)
    ensures C.Size(C.Write(ty, v, off).pieces) == 0 <==> C.ZeroSized(ty)
    decreases ty, 1, 0
  {
    hide C.Size, C.WriteItems, C.WriteEntries, C.WriteFields, C.WriteWord;
    match ty
    case Scalar(p) => SizeOfWord(C.Width(p), C.RawOf(p, v.n), off);
    case Text =>
      var len := C.WriteWord(4, |v.octets| + 1, off);
      SizeOfWord(4, |v.octets| + 1, off);
      SizeOfThen(len, C.Written([C.Plain(v.octets), C.Word(1, 0)], len.off + |v.octets| + 1));
    case Vec(elem) =>
      var len := C.WriteWord(4, |v.items|, off);
      SizeOfWord(4, |v.items|, off);
      SizeOfThen(len, C.WriteItems(elem, v.items, len.off));
    case Array(elem, len) => ItemsWriteNothing(elem, v.items, off);
    case Map(key, val) =>
      var len := C.WriteWord(4, |v.entries|, off);
      SizeOfWord(4, |v.entries|, off);
      SizeOfThen(len, C.WriteEntries(key, val, v.entries, len.off));
    case Nested(fields) => FieldsWriteNothing(fields, v.vals, 0);
  }

  lemma {:induction false} ItemsWriteNothing(elem: C.Ty, items: seq<C.Val>, off: nat)
    requires forall i :: 0 <= i < |items| ==> C.Typed(elem, items[i])
    ensures C.Size(C.WriteItems(elem, items, off).pieces) == 0 <==> items == [] || C.ZeroSized(elem)
    decreases elem, 2, |items|
  {
    hide C.Write;
    if items != [] {
      var first := C.Write(elem, items[0], off);
      WritesNothing(elem, items[0], off);
      ItemsWriteNothing(elem, items[1..], first.off);
      SizeOfThen(first, C.WriteItems(elem, items[1..], first.off));
    }
  }

  lemma {:induction false} FieldsWriteNothing(fields: C.Fields, vals: seq<C.Val>, off: nat)
    requires C.FieldsTyped(fields, vals)
    ensures C.Size(C.WriteFields(fields, vals, off).pieces) == 0 <==> C.ZeroSizedFields(fields)
    decreases fields, 1, 0
  {
    hide C.Write;
    match fields
    case NoFields =>
    case Field(ty, rest) =>
      var first := C.Write(ty, vals[0], off);
      WritesNothing(ty, vals[0], off);
      FieldsWriteNothing(rest, vals[1..], first.off);
      SizeOfThen(first, C.WriteFields(rest, vals[1..], first.off));
  }

  /** Which samples a reader can be given: those of a type that takes memory, short enough
      for a datagram. No sample of a type that takes none ever arrives. */
  lemma SampleArrives(fields: C.Fields, vals: seq<C.Val>, e: Endianness)
    requires C.FieldsTyped(fields, vals)
    ensures Deliverable(Packed(fields, vals, e))
      <==> !C.ZeroSizedFields(fields) && |C.Bytes(C.WriteStruct(fields, vals).pieces, e)| <= MAX_DATAGRAM - 60
  {
    hide C.Bytes, C.WriteFields, C.ZeroSizedFields, C.Size;
    FieldsWriteNothing(fields, vals, 0);
    C.SizeIsBytes(C.WriteStruct(fields, vals).pieces, e);
  }

  /** Samples in the order of their changes; what cannot be read is left out. */
  function Decoded(fields: C.Fields, read: seq<CacheChange>): seq<Sample>
    requires forall c :: c in read ==> c.data.Some?
  {
    if read == [] then []
    else
      var last := read[|read| - 1];
      var r := Unpacked(fields, last.data.value);
      Decoded(fields, read[..|read| - 1]) + if r.Ok? then [Sample(r.value, last.timestamp)] else []
  }

  lemma DecodedMore(fields: C.Fields, read: seq<CacheChange>, c: CacheChange)
    requires (forall d :: d in read ==> d.data.Some?) && c.data.Some?
    ensures forall d :: d in read + [c] ==> d.data.Some?
    ensures var r := Unpacked(fields, c.data.value);
      Decoded(fields, read + [c]) == Decoded(fields, read) + if r.Ok? then [Sample(r.value, c.timestamp)] else []
  {
    assert (read + [c])[..|read|] == read;
  }

  /** Nothing read gives nothing; the samples of two batches follow each other; one change
      gives one sample, or none if its octets are not of the type. */
  lemma {:induction false} DecodedExactly(fields: C.Fields, a: seq<CacheChange>, b: seq<CacheChange>, c: CacheChange)
    requires (forall d :: d in a + b ==> d.data.Some?) && c.data.Some?
    ensures Decoded(fields, []) == []
    ensures (forall d :: d in a ==> d.data.Some?) && (forall d :: d in b ==> d.data.Some?)
    ensures Decoded(fields, a + b) == Decoded(fields, a) + Decoded(fields, b)
    ensures var r := Unpacked(fields, c.data.value);
      Decoded(fields, [c]) == if r.Ok? then [Sample(r.value, c.timestamp)] else []
    decreases |b|
  {
    assert [c][..0] == [];
    assert forall d :: d in a + b <==> d in a || d in b;
    if b == [] {
      assert a + b == a;
    } else {
      var m := |b| - 1;
      assert (a + b)[..|a + b| - 1] == a + b[..m];
      assert (a + b)[|a + b| - 1] == b[m];
      DecodedExactly(fields, a, b[..m], c);
    }
  }

  /** The payload of a sample: CDR_BE is 0, CDR_LE is 1, no options, then the CDR octets. */
  lemma PackedOctets()
    ensures C.FieldsTyped(O.MixedFields(), O.MixedVals())
    ensures Packed(O.MixedFields(), O.MixedVals(), LittleEndian)
         == [0, 1, 0, 0] + ([7] + [0, 0x02, 0x01] + [2, 0, 0, 0, 0x41, 0] + [0, 0, 1, 0, 0, 0, 0xFE, 0xFF]
                            + [0, 0, 1, 0, 0, 0, 0xE9, 1] + [0xFD, 0xFF, 0xFF, 0xFF])
    ensures Packed(O.MixedFields(), O.MixedVals(), BigEndian)
         == [0, 0, 0, 0] + ([7] + [0, 0x01, 0x02] + [0, 0, 0, 2, 0x41, 0] + [0, 0, 0, 0, 0, 1, 0xFF, 0xFE]
                            + [0, 0, 0, 0, 0, 1, 0xE9, 1] + [0xFF, 0xFF, 0xFF, 0xFD])
  {
    O.MixedSample();
    hide C.Bytes, C.WriteStruct, O.MixedFields, O.MixedVals, C.FieldsTyped;
  }

  predicate Undecodable(fields: C.Fields, c: CacheChange) {
    c.data.Some? && Unpacked(fields, c.data.value) == C.Panic
  }

  method DecodeAll(fields: C.Fields, read: seq<CacheChange>) returns (samples: seq<Sample>, panicked: bool)
    requires forall c :: c in read ==> c.data.Some?
    ensures panicked <==> exists c :: c in read && Undecodable(fields, c)
    ensures !panicked ==> samples == Decoded(fields, read)
  {
    samples := [];
    var i := 0;
    while i < |read|
      invariant i <= |read| && forall c :: c in read[..i] ==> c in read
      invariant samples == Decoded(fields, read[..i]) && forall c :: c in read[..i] ==> !Undecodable(fields, c)
    {
      var r := Unpacked(fields, read[i].data.value);
      assert read[..i + 1] == read[..i] + [read[i]];
      DecodedMore(fields, read[..i], read[i]);
      match r {
        case Ok(v) => samples := samples + [Sample(v, read[i].timestamp)];
        case ReadError =>
        case Panic =>
          assert read[i] in read && Undecodable(fields, read[i]);
          return samples, true;
      }
      i := i + 1;
    }
    panicked := false;
    assert read[..i] == read;
  }

  class DataReader {
    const rhc: HistoryCache
    const fields: C.Fields               // the type of the samples

    constructor (rhc: HistoryCache, fields: C.Fields)
      ensures this.rhc == rhc && this.fields == fields
    {
      this.rhc, this.fields := rhc, fields;
    }

    ghost predicate TakesJust(read: seq<CacheChange>)
      requires rhc.Valid()
      reads rhc
    {
      && (forall i, j :: 0 <= i < j < |read| ==> Before(KeyOf(read[i]), KeyOf(read[j])))
      && (forall c :: c in read <==> KeyOf(c) in rhc.ready && c == rhc.changes[KeyOf(c)] && Readable(c))
    }

    /** `read` lists the ready changes with data in strictly increasing order of (sequence
        number, GUID). The samples are theirs, and the ready changes, and just these, leave
        the cache, noted as taken. A payload that is not CDR is a panic before any of them goes. */
    method Take() returns (samples: seq<Sample>, panicked: bool, ghost read: seq<CacheChange>)
      requires rhc.Valid() && rhc.kind == ReaderCache
      modifies rhc
      ensures rhc.Valid() && old(TakesJust(read))
      ensures panicked <==> exists c :: c in read && Undecodable(fields, c)
      ensures panicked ==> rhc.changes == old(rhc.changes) && rhc.ready == old(rhc.ready) && rhc.taken == old(rhc.taken)
      ensures !panicked ==> samples == Decoded(fields, read)
      ensures var gone := set k | k in old(rhc.ready) && old(rhc.changes)[k].kind == Alive;
        !panicked ==>
          && rhc.changes == old(rhc.changes) - gone && rhc.ready == old(rhc.ready) - gone
          && rhc.taken == old(rhc.taken) + gone
      ensures !panicked && (forall k :: k in old(rhc.changes) ==> old(rhc.changes)[k].kind == Alive) ==> rhc.ready == {}
    {
      var keys, found, gap := rhc.GetReadyChanges();
      var readable := WithData(found, keys);
      read := readable;
      ReadsReady(keys, found, read);
      samples, panicked := DecodeAll(fields, readable);
      if !panicked {
        assert Members(keys) == set k | k in rhc.ready && rhc.changes[k].kind == Alive;
        rhc.RemoveAll(keys, true);
      }
    }

    lemma ReadsReady(keys: seq<Key>, found: seq<CacheChange>, read: seq<CacheChange>)
      requires rhc.Valid() && |found| == |keys|
      requires forall k :: k in keys <==> k in rhc.ready && rhc.changes[k].kind == Alive
      requires forall i :: 0 <= i < |keys| ==> keys[i] in rhc.changes && found[i] == rhc.changes[keys[i]]
      requires forall i, j :: 0 <= i < j < |read| ==> Before(KeyOf(read[i]), KeyOf(read[j]))
      requires forall c :: c in read <==> c in found && c.data.Some?
      ensures TakesJust(read)
    {
      forall c
        ensures c in read <==> KeyOf(c) in rhc.ready && c == rhc.changes[KeyOf(c)] && Readable(c)
      {
        if c in found {
          var m :| 0 <= m < |found| && found[m] == c;
          assert keys[m] in keys;
        }
        if KeyOf(c) in rhc.ready && c == rhc.changes[KeyOf(c)] && Readable(c) {
          assert KeyOf(c) in keys;
          var m :| 0 <= m < |keys| && keys[m] == KeyOf(c);
          assert found[m] == c;
        }
      }
    }
  }

  /** Changes without data are skipped; the others keep their order. */
  method WithData(found: seq<CacheChange>, ghost keys: seq<Key>) returns (samples: seq<CacheChange>)
    requires |found| == |keys| && Ascends(keys) && forall i :: 0 <= i < |keys| ==> KeyOf(found[i]) == keys[i]
    ensures forall i, j :: 0 <= i < j < |samples| ==> Before(KeyOf(samples[i]), KeyOf(samples[j]))
    ensures forall c :: c in samples <==> c in found && c.data.Some?
  {
    samples := [];
    var i := 0;
    while i < |found|
      invariant i <= |found|
      invariant forall c :: c in samples <==> c in found[..i] && c.data.Some?
      invariant forall j, m :: 0 <= j < |samples| && i <= m < |keys| ==> Before(KeyOf(samples[j]), keys[m])
      invariant forall j, m :: 0 <= j < m < |samples| ==> Before(KeyOf(samples[j]), KeyOf(samples[m]))
    {
      assert found[..i + 1] == found[..i] + [found[i]];
      if found[i].data.Some? {
        samples := samples + [found[i]];
      }
      i := i + 1;
    }
    assert found[..i] == found;
  }
}
